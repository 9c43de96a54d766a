/**
 Join chains. JOIN opens a join and ON or USING closes it, like brackets; NATURAL JOIN does neither,
 because its right side is a table that is not a join itself.
 */
module Joins {
  import opened Tokens

  /** A table name or a parenthesised select, a condition and a column are opaque here. */
  datatype JoinToken =
    | Table(table: nat) | Condition(condition: nat) | Column(column: nat)
    | NaturalWord | JoinWord | OnWord | UsingWord | LeftParen | RightParen
    | InnerWord | LeftWord | RightWord | FullWord | OuterWord | CrossWord

  /** The spellings of `opt_join_type`. */
  datatype Kind = Plain | Inner | Left | LeftOuter | Right | RightOuter | Full | FullOuter | Outer | Cross

  datatype Closer = On(condition: nat) | Using(column: nat)

  datatype TableRef =
    | Atom(table: nat)
    | Natural(left: TableRef, rightTable: nat)
    | Join(left: TableRef, kind: Kind, right: TableRef, closer: Closer)

  // ----- yields -----

  function KindTokens(k: Kind, ts: List<JoinToken>): List<JoinToken> {
    match k
    case Plain => ts
    case Inner => Cons(InnerWord, ts)
    case Left => Cons(LeftWord, ts)
    case LeftOuter => Cons(LeftWord, Cons(OuterWord, ts))
    case Right => Cons(RightWord, ts)
    case RightOuter => Cons(RightWord, Cons(OuterWord, ts))
    case Full => Cons(FullWord, ts)
    case FullOuter => Cons(FullWord, Cons(OuterWord, ts))
    case Outer => Cons(OuterWord, ts)
    case Cross => Cons(CrossWord, ts)
  }

  function CloserTokens(c: Closer, ts: List<JoinToken>): List<JoinToken> {
    match c
    case On(x) => Cons(OnWord, Cons(Condition(x), ts))
    case Using(x) => Cons(UsingWord, Cons(LeftParen, Cons(Column(x), Cons(RightParen, ts))))
  }

  function TableTokens(t: TableRef, ts: List<JoinToken>): List<JoinToken> {
    match t
    case Atom(x) => Cons(Table(x), ts)
    case Natural(l, x) => TableTokens(l, Cons(NaturalWord, Cons(JoinWord, Cons(Table(x), ts))))
    case Join(l, k, r, c) => TableTokens(l, KindTokens(k, Cons(JoinWord, TableTokens(r, CloserTokens(c, ts)))))
  }

  // ----- the parser -----

  /** A join whose right side has not been closed yet. */
  datatype Stack = Bottom | Push(left: TableRef, kind: Kind, below: Stack)

  datatype Config = Want(stack: Stack) | Have(table: TableRef, stack: Stack)

  datatype Outcome = Next(config: Config, rest: List<JoinToken>) | Accept(table: TableRef) | Reject

  /** The join type in front of JOIN, and what follows the JOIN. */
  function TakeKind(ts: List<JoinToken>): (r: Option<(Kind, List<JoinToken>)>)
    ensures r.Some? ==> ts == KindTokens(r.value.0, Cons(JoinWord, r.value.1)) && r.value.1.Size() < ts.Size()
    ensures forall k, rest :: ts == KindTokens(k, Cons(JoinWord, rest)) ==> r == Some((k, rest))
  {
    if ts.Nil? then None
    else if ts.head == JoinWord then Some((Plain, ts.tail))
    else
      var follows := ts.tail.Cons? && ts.tail.head == JoinWord;
      var outer := ts.tail.Cons? && ts.tail.head == OuterWord && ts.tail.tail.Cons? && ts.tail.tail.head == JoinWord;
      if ts.head == InnerWord && follows then Some((Inner, ts.tail.tail))
      else if ts.head == LeftWord && follows then Some((Left, ts.tail.tail))
      else if ts.head == LeftWord && outer then Some((LeftOuter, ts.tail.tail.tail))
      else if ts.head == RightWord && follows then Some((Right, ts.tail.tail))
      else if ts.head == RightWord && outer then Some((RightOuter, ts.tail.tail.tail))
      else if ts.head == FullWord && follows then Some((Full, ts.tail.tail))
      else if ts.head == FullWord && outer then Some((FullOuter, ts.tail.tail.tail))
      else if ts.head == OuterWord && follows then Some((Outer, ts.tail.tail))
      else if ts.head == CrossWord && follows then Some((Cross, ts.tail.tail))
      else None
  }

  function TakeCloser(ts: List<JoinToken>): (r: Option<(Closer, List<JoinToken>)>)
    ensures r.Some? ==> ts == CloserTokens(r.value.0, r.value.1) && r.value.1.Size() < ts.Size()
    ensures forall c, rest :: ts == CloserTokens(c, rest) ==> r == Some((c, rest))
  {
    if ts.Cons? && ts.head == OnWord && ts.tail.Cons? && ts.tail.head.Condition? then
      Some((On(ts.tail.head.condition), ts.tail.tail))
    else if ts.Cons? && ts.head == UsingWord && ts.tail.Cons? && ts.tail.head == LeftParen
            && ts.tail.tail.Cons? && ts.tail.tail.head.Column?
            && ts.tail.tail.tail.Cons? && ts.tail.tail.tail.head == RightParen
    then
      assert ts.Size() == 2 + ts.tail.tail.Size() && ts.tail.tail.Size() == 2 + ts.tail.tail.tail.tail.Size();
      Some((Using(ts.tail.tail.head.column), ts.tail.tail.tail.tail))
    else None
  }

  /** A table stands on the stack: the lookahead starts a natural join, opens a join, closes the
      innermost open join, or ends the input. */
  function StepHave(t: TableRef, k: Stack, ts: List<JoinToken>): (out: Outcome)
    ensures out.Next? ==> out.rest.Size() < ts.Size()
  {
    if ts.Nil? then (if k.Bottom? then Accept(t) else Reject)
    else if ts.head == NaturalWord then
      if ts.tail.Cons? && ts.tail.head == JoinWord && ts.tail.tail.Cons? && ts.tail.tail.head.Table? then
        assert ts.Size() == 2 + ts.tail.tail.Size();
        Next(Have(Natural(t, ts.tail.tail.head.table), k), ts.tail.tail.tail)
      else Reject
    else if TakeKind(ts).Some? then Next(Want(Push(t, TakeKind(ts).value.0, k)), TakeKind(ts).value.1)
    else if TakeCloser(ts).Some? && k.Push? then
      Next(Have(Join(k.left, k.kind, t, TakeCloser(ts).value.0), k.below), TakeCloser(ts).value.1)
    else Reject
  }

  function Step(c: Config, ts: List<JoinToken>): (out: Outcome)
    ensures out.Next? ==> out.rest.Size() < ts.Size()
  {
    match c
    case Want(k) => if ts.Cons? && ts.head.Table? then Next(Have(Atom(ts.head.table), k), ts.tail) else Reject
    case Have(t, k) => StepHave(t, k, ts)
  }

  function Run(c: Config, ts: List<JoinToken>): Option<TableRef>
    decreases ts.Size()
  {
    match Step(c, ts)
    case Next(c', rest) => Run(c', rest)
    case Accept(t) => Some(t)
    case Reject => None
  }

  function ParseTable(ts: List<JoinToken>): Option<TableRef> {
    Run(Want(Bottom), ts)
  }

  // ----- every tree is recovered from its yield -----

  ghost function Consumed(k: Stack, ts: List<JoinToken>): List<JoinToken>
    decreases k
  {
    match k
    case Bottom => ts
    case Push(l, kind, below) => Consumed(below, TableTokens(l, KindTokens(kind, Cons(JoinWord, ts))))
  }

  ghost function Whole(c: Config, ts: List<JoinToken>): List<JoinToken> {
    match c
    case Want(k) => Consumed(k, ts)
    case Have(t, k) => Consumed(k, TableTokens(t, ts))
  }

  lemma StepKeeps(c: Config, ts: List<JoinToken>)
    requires Step(c, ts).Next?
    ensures Whole(Step(c, ts).config, Step(c, ts).rest) == Whole(c, ts)
  {
    match c
    case Want(k) =>
      assert TableTokens(Atom(ts.head.table), ts.tail) == ts;
    case Have(t, k) =>
      if ts.head == NaturalWord {
        assert TableTokens(Natural(t, ts.tail.tail.head.table), ts.tail.tail.tail) == TableTokens(t, ts);
      } else if TakeKind(ts).Some? {
      } else {
        var (c, rest) := TakeCloser(ts).value;
        assert TableTokens(Join(k.left, k.kind, t, c), rest)
            == TableTokens(k.left, KindTokens(k.kind, Cons(JoinWord, TableTokens(t, ts))));
      }
  }

  lemma {:induction false} RunIsSound(c: Config, ts: List<JoinToken>, t: TableRef)
    requires Run(c, ts) == Some(t)
    ensures TableTokens(t, Nil) == Whole(c, ts)
    decreases ts.Size()
  {
    match Step(c, ts)
    case Next(c', rest) =>
      StepKeeps(c, ts);
      RunIsSound(c', rest, t);
    case Accept(_) =>
  }

  lemma KindStarts(kind: Kind, ts: List<JoinToken>)
    ensures var opening := KindTokens(kind, Cons(JoinWord, ts));
            opening.Cons? && opening.head != NaturalWord && TakeKind(opening) == Some((kind, ts))
  {}

  lemma CloserStarts(c: Closer, ts: List<JoinToken>)
    ensures var closing := CloserTokens(c, ts);
            closing.Cons? && closing.head != NaturalWord && TakeKind(closing).None?
                && TakeCloser(closing) == Some((c, ts))
  {}

  /** From wherever a table is wanted, the machine reads exactly the tree and stands behind it. */
  lemma {:induction false} RunsTable(t: TableRef, k: Stack, ts: List<JoinToken>)
    ensures Run(Want(k), TableTokens(t, ts)) == Run(Have(t, k), ts)
    decreases t
  {
    hide TakeKind, TakeCloser, KindTokens, CloserTokens;
    match t
    case Atom(x) =>
    case Natural(l, x) =>
      RunsTable(l, k, Cons(NaturalWord, Cons(JoinWord, Cons(Table(x), ts))));
    case Join(l, kind, r, c) =>
      var closing := CloserTokens(c, ts);
      var opening := KindTokens(kind, Cons(JoinWord, TableTokens(r, closing)));
      RunsTable(l, k, opening);
      KindStarts(kind, TableTokens(r, closing));
      assert Run(Have(l, k), opening) == Run(Want(Push(l, kind, k)), TableTokens(r, closing));
      RunsTable(r, Push(l, kind, k), closing);
      CloserStarts(c, ts);
  }

  /** The parser accepts exactly the yields of trees, and returns the tree. */
  lemma JoinTreesAreRecovered(ts: List<JoinToken>, t: TableRef)
    ensures ParseTable(ts) == Some(t) <==> TableTokens(t, Nil) == ts
  {
    if ParseTable(ts) == Some(t) {
      RunIsSound(Want(Bottom), ts, t);
    }
    if TableTokens(t, Nil) == ts {
      RunsTable(t, Bottom, Nil);
    }
  }

  // ----- consequences -----

  /** A chain with each closer directly behind its right table. */
  datatype Link = Link(kind: Kind, table: nat, closer: Closer)

  function ChainTokens(links: seq<Link>): List<JoinToken>
    decreases links
  {
    if links == [] then Nil
    else KindTokens(links[0].kind,
        Cons(JoinWord, Cons(Table(links[0].table), CloserTokens(links[0].closer, ChainTokens(links[1..])))))
  }

  /** The left-deep tree: the last link is at the root. */
  function LeftDeep(t: TableRef, links: seq<Link>): TableRef
    decreases links
  {
    if links == [] then t else LeftDeep(Join(t, links[0].kind, Atom(links[0].table), links[0].closer), links[1..])
  }

  lemma {:induction false} ChainIsLeftDeep(t: TableRef, links: seq<Link>)
    ensures ParseTable(TableTokens(t, ChainTokens(links))) == Some(LeftDeep(t, links))
    decreases links
  {
    if links == [] {
      JoinTreesAreRecovered(TableTokens(t, Nil), t);
    } else {
      var t' := Join(t, links[0].kind, Atom(links[0].table), links[0].closer);
      ChainIsLeftDeep(t', links[1..]);
      assert TableTokens(t', ChainTokens(links[1..])) == TableTokens(t, ChainTokens(links));
    }
  }

  /** Closers that are all at the end close the joins from the inside: the tree is right-deep. */
  function Openers(tables: seq<nat>, ts: List<JoinToken>): List<JoinToken>
    decreases tables
  {
    if tables == [] then ts else Cons(JoinWord, Cons(Table(tables[0]), Openers(tables[1..], ts)))
  }

  function Closers(closers: seq<Closer>, ts: List<JoinToken>): List<JoinToken>
    decreases closers
  {
    if closers == [] then ts else CloserTokens(closers[0], Closers(closers[1..], ts))
  }

  function RightDeep(x: nat, tables: seq<nat>, closers: seq<Closer>): TableRef
    requires |closers| == |tables|
    decreases tables
  {
    if tables == [] then Atom(x)
    else Join(Atom(x), Plain, RightDeep(tables[0], tables[1..], closers[..|closers| - 1]), closers[|closers| - 1])
  }

  lemma {:induction false} ClosersSnoc(closers: seq<Closer>, c: Closer, ts: List<JoinToken>)
    ensures Closers(closers + [c], ts) == Closers(closers, CloserTokens(c, ts))
    decreases closers
  {
    if closers == [] {
      assert [] + [c] == [c] && [c][1..] == [];
    } else {
      assert (closers + [c])[1..] == closers[1..] + [c];
      ClosersSnoc(closers[1..], c, ts);
    }
  }

  lemma {:induction false} RightDeepTokens(x: nat, tables: seq<nat>, closers: seq<Closer>, ts: List<JoinToken>)
    requires |closers| == |tables|
    ensures TableTokens(RightDeep(x, tables, closers), ts) == Cons(Table(x), Openers(tables, Closers(closers, ts)))
    decreases tables
  {
    if tables != [] {
      var n := |closers| - 1;
      RightDeepTokens(tables[0], tables[1..], closers[..n], CloserTokens(closers[n], ts));
      ClosersSnoc(closers[..n], closers[n], ts);
      assert closers == closers[..n] + [closers[n]];
    }
  }

  lemma NestedClosersAreRightDeep(x: nat, tables: seq<nat>, closers: seq<Closer>)
    requires |closers| == |tables|
    ensures ParseTable(Cons(Table(x), Openers(tables, Closers(closers, Nil)))) == Some(RightDeep(x, tables, closers))
  {
    RightDeepTokens(x, tables, closers, Nil);
    JoinTreesAreRecovered(Cons(Table(x), Openers(tables, Closers(closers, Nil))), RightDeep(x, tables, closers));
  }

  // ----- the type of a join -----

  /** `JoinType` (src/sql/Table.h). */
  datatype JoinType = JoinInner | JoinFull | JoinLeft | JoinRight | JoinCross | JoinNatural

  function TypeOf(t: TableRef): JoinType
    requires !t.Atom?
  {
    match t
    case Natural(_, _) => JoinNatural
    case Join(_, kind, _, _) =>
      (match kind
       case Plain => JoinInner
       case Inner => JoinInner
       case Left => JoinLeft
       case LeftOuter => JoinLeft
       case Right => JoinRight
       case RightOuter => JoinRight
       case Full => JoinFull
       case FullOuter => JoinFull
       case Outer => JoinFull
       case Cross => JoinCross)
  }

  /** The words in front of JOIN, and the type they give. */
  const TYPES: seq<(List<JoinToken>, JoinType)> := [
    (Nil, JoinInner), (Cons(InnerWord, Nil), JoinInner),
    (Cons(LeftWord, Nil), JoinLeft), (Cons(LeftWord, Cons(OuterWord, Nil)), JoinLeft),
    (Cons(RightWord, Nil), JoinRight), (Cons(RightWord, Cons(OuterWord, Nil)), JoinRight),
    (Cons(FullWord, Nil), JoinFull), (Cons(FullWord, Cons(OuterWord, Nil)), JoinFull),
    (Cons(OuterWord, Nil), JoinFull), (Cons(CrossWord, Nil), JoinCross)]

  lemma {:induction false} TableInFront(t: TableRef, a: List<JoinToken>, b: List<JoinToken>)
    ensures TableTokens(t, Append(a, b)) == Append(TableTokens(t, a), b)
    decreases t
  {
    match t
    case Atom(_) =>
    case Natural(l, x) =>
      var behind := Cons(JoinWord, Cons(Table(x), a));
      assert Append(behind, b) == Cons(JoinWord, Append(behind.tail, b));
      TableInFront(l, Cons(NaturalWord, behind), b);
    case Join(l, k, r, c) =>
      CloserInFront(c, a, b);
      TableInFront(r, CloserTokens(c, a), b);
      KindInFront(k, TableTokens(r, CloserTokens(c, a)), b);
      TableInFront(l, KindTokens(k, Cons(JoinWord, TableTokens(r, CloserTokens(c, a)))), b);
  }

  lemma CloserInFront(c: Closer, a: List<JoinToken>, b: List<JoinToken>)
    ensures CloserTokens(c, Append(a, b)) == Append(CloserTokens(c, a), b)
  {
    if c.Using? {
      var behind := Cons(Column(c.column), Cons(RightParen, a));
      assert Append(behind, b) == Cons(Column(c.column), Append(behind.tail, b));
    }
  }

  lemma KindInFront(k: Kind, a: List<JoinToken>, b: List<JoinToken>)
    ensures KindTokens(k, Cons(JoinWord, Append(a, b))) == Append(KindTokens(k, Cons(JoinWord, a)), b)
  {
    assert Append(Cons(JoinWord, a), b) == Cons(JoinWord, Append(a, b));
  }

  /** Any two tables with the words of `TYPES[i]` between them are joined with the type of `TYPES[i]`, the
      first one on the left; with NATURAL the right side is a single table. */
  lemma TypeIsByWords(ls: List<JoinToken>, i: nat, rs: List<JoinToken>, l: TableRef, r: TableRef, condition: nat)
    requires i < |TYPES| && ParseTable(ls) == Some(l) && ParseTable(rs) == Some(r)
    ensures var whole := Append(ls, Append(TYPES[i].0, Cons(JoinWord,
                Append(rs, Cons(OnWord, Cons(Condition(condition), Nil))))));
            && ParseTable(whole).Some? && ParseTable(whole).value.Join?
            && ParseTable(whole).value.left == l && ParseTable(whole).value.right == r
            && ParseTable(whole).value.closer == On(condition) && TypeOf(ParseTable(whole).value) == TYPES[i].1
  {
    hide ParseTable, TableTokens;
    var closing := CloserTokens(On(condition), Nil);
    var kind := KindOf(i, Append(rs, closing));
    JoinTreesAreRecovered(ls, l);
    JoinTreesAreRecovered(rs, r);
    TableInFront(r, Nil, closing);
    TableInFront(l, Nil, KindTokens(kind, Cons(JoinWord, Append(rs, closing))));
    JoinedTokens(l, kind, r, On(condition));
    JoinTreesAreRecovered(TableTokens(Join(l, kind, r, On(condition)), Nil), Join(l, kind, r, On(condition)));
  }

  lemma JoinedTokens(l: TableRef, k: Kind, r: TableRef, c: Closer)
    ensures TableTokens(Join(l, k, r, c), Nil)
         == TableTokens(l, KindTokens(k, Cons(JoinWord, TableTokens(r, CloserTokens(c, Nil)))))
  {}

  /** The spelling with the words of `TYPES[i]`. */
  lemma KindOf(i: nat, ts: List<JoinToken>) returns (k: Kind)
    requires i < |TYPES|
    ensures KindTokens(k, Cons(JoinWord, ts)) == Append(TYPES[i].0, Cons(JoinWord, ts))
    ensures forall l, r, c :: TypeOf(Join(l, k, r, c)) == TYPES[i].1
  {
    k := [Plain, Inner, Left, LeftOuter, Right, RightOuter, Full, FullOuter, Outer, Cross][i];
    TwoWords(TYPES[i].0, Cons(JoinWord, ts));
  }

  lemma TwoWords(ws: List<JoinToken>, ts: List<JoinToken>)
    requires ws.Nil? || ws.tail.Nil? || ws.tail.tail.Nil?
    ensures Append(ws, ts) == if ws.Nil? then ts else if ws.tail.Nil? then Cons(ws.head, ts)
                              else Cons(ws.head, Cons(ws.tail.head, ts))
  {
    if ws.Cons? && ws.tail.Cons? {
      assert Append(ws.tail, ts) == Cons(ws.tail.head, Append(ws.tail.tail, ts));
    }
  }

  lemma NaturalType(ls: List<JoinToken>, l: TableRef, x: nat)
    requires ParseTable(ls) == Some(l)
    ensures var whole := Append(ls, Cons(NaturalWord, Cons(JoinWord, Cons(Table(x), Nil))));
            ParseTable(whole) == Some(Natural(l, x)) && TypeOf(Natural(l, x)) == JoinNatural
  {
    hide ParseTable;
    var behind := Cons(NaturalWord, Cons(JoinWord, Cons(Table(x), Nil)));
    JoinTreesAreRecovered(ls, l);
    TableInFront(l, Nil, behind);
    JoinTreesAreRecovered(Append(ls, behind), Natural(l, x));
  }
}
