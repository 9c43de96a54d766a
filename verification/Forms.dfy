/**
 The forms of an expression as token lists: what each of them parses to, for any expressions and
 operands in its places.
 */
module Forms {
  import opened Tokens
  import opened Syntax
  import opened Machine
  import opened Soundness
  import opened Completeness
  import opened Readings
  import opened Yields

  /** The tokens `ts` are the expression `e`. */
  predicate Is(ts: List<Token>, e: Expr) {
    Parse(ts) == Some(e)
  }

  predicate IsOperand(ts: List<Token>, o: Operand) {
    Parse(ts) == Some(Plain(o))
  }

  lemma ExprInPlace(xs: List<Token>, e: Expr, ts: List<Token>)
    requires Is(xs, e)
    ensures LegalExpr(e) && xs == ExprTokens(e, Nil) && Append(xs, ts) == ExprTokens(e, ts)
  {
    hide Parse;
    ParseIsSound(xs, e);
    ExprInFront(e, ts);
  }

  lemma OperandInPlace(xs: List<Token>, o: Operand, ts: List<Token>)
    requires IsOperand(xs, o)
    ensures LegalOperand(o) && xs == OperandTokens(o, Nil) && Append(xs, ts) == OperandTokens(o, ts)
  {
    hide Parse;
    ExprInPlace(xs, Plain(o), ts);
    assert LegalExpr(Plain(o)) && ExprTokens(Plain(o), Nil) == OperandTokens(o, Nil)
        && ExprTokens(Plain(o), ts) == OperandTokens(o, ts);
  }

  lemma Accepts(e: Expr, ts: List<Token>)
    requires LegalExpr(e) && ExprTokens(e, Nil) == ts
    ensures Is(ts, e)
  {
    ParseIsComplete(e);
  }

  lemma AcceptsOperand(o: Operand, ts: List<Token>)
    requires LegalOperand(o) && OperandTokens(o, Nil) == ts
    ensures IsOperand(ts, o)
  {
    assert LegalExpr(Plain(o)) && ExprTokens(Plain(o), Nil) == OperandTokens(o, Nil);
    ParseIsComplete(Plain(o));
  }

  // ----- single tokens and names -----

  /** The text of a token where the grammar asks for a name, if it may stand there. */
  function NameIn(t: Token): Option<string> {
    match t
    case Ident(n) => Some(n)
    case Str(b) => Some(b)
    case Kw(RECURSIVE) => Some("recursive")
    case Kw(TEXT) => Some("text")
    case Kw(ON) => Some("ON")
    case Kw(KEY) => Some("key")
    case Kw(TEMP) => Some("temp")
    case Kw(REPLACE) => Some("replace")
    case _ => None
  }

  predicate StandsAlone(t: Token) {
    NameIn(t).Some? || t.Float? || t.Int? || t == Kw(NULL) || t == Sym('*') || t == Sym('?')
  }

  /** One token is an expression exactly when it is a name, a number, NULL, `*` or `?`. */
  lemma LeafForm(t: Token)
    ensures Parse(Cons(t, Nil)) == if StandsAlone(t) then Some(Plain(Leaf(t))) else None
  {
    if StandsAlone(t) {
      AcceptsOperand(Leaf(t), Cons(t, Nil));
    } else {
      assert !IsLeaf(t);
      LonelyRejects(t);
    }
  }

  lemma LonelyRejects(t: Token)
    requires !IsLeaf(t)
    ensures Parse(Cons(t, Nil)) == None
  {
    hide IsLeaf, StepName;
    var out := Step(Want(Bottom), Cons(t, Nil));
    assert IsName(t) ==> IsLeaf(t) by { NamesAreLeaves(t); }
    if out.Next? {
      assert out.config.Want? && out.rest.Nil?;
      assert Step(out.config, out.rest).Reject?;
    }
  }

  lemma NamesAreLeaves(t: Token)
    ensures IsName(t) ==> IsLeaf(t)
  {}

  /** Behind a table name and a point there is a name or `*`. */
  lemma DottedForm(table: string, column: Token)
    ensures Parse(Cons(Ident(table), Cons(Sym('.'), Cons(column, Nil))))
         == if NameIn(column).Some? || column == Sym('*') then Some(Plain(Dotted(table, column))) else None
  {
    var ts := Cons(Ident(table), Cons(Sym('.'), Cons(column, Nil)));
    if NameIn(column).Some? || column == Sym('*') {
      AcceptsOperand(Dotted(table, column), ts);
    } else {
      assert Step(Want(Bottom), ts) == Reject;
    }
  }

  lemma NamedForm(name: string)
    ensures IsOperand(Cons(Sym(':'), Cons(Ident(name), Nil)), NamedParameter(name))
  {
    AcceptsOperand(NamedParameter(name), Cons(Sym(':'), Cons(Ident(name), Nil)));
  }

  // ----- forms without a list -----

  lemma ParenForm(xs: List<Token>, e: Expr)
    requires Is(xs, e)
    ensures IsOperand(Cons(Sym('('), Append(xs, Cons(Sym(')'), Nil))), Paren(e))
  {
    hide Parse;
    ExprInPlace(xs, e, Cons(Sym(')'), Nil));
    AcceptsOperand(Paren(e), Cons(Sym('('), Append(xs, Cons(Sym(')'), Nil))));
  }

  lemma NotForm(xs: List<Token>, x: Operand)
    requires IsOperand(xs, x)
    ensures IsOperand(Cons(Kw(NOT), xs), Not(x))
  {
    hide Parse;
    OperandInPlace(xs, x, Nil);
    NotTakesOperand(x);
    AcceptsOperand(Not(x), Cons(Kw(NOT), xs));
  }

  lemma {:induction false} NotTakesOperand(o: Operand)
    ensures Opens(NOT_RULE, o)
  {
    match o
    case Postfix(a, _) => NotTakesOperand(a);
    case Infix(l, op, _) => NotTakesOperand(l);
    case _ =>
  }

  lemma BetweenForm(xs: List<Token>, ls: List<Token>, hs: List<Token>, x: Operand, lo: Operand, hi: Operand)
    requires IsOperand(xs, x) && IsOperand(ls, lo) && IsOperand(hs, hi)
    ensures Is(Append(xs, Cons(Kw(BETWEEN), Append(ls, Cons(Kw(AND), hs)))), Between(x, lo, hi))
  {
    hide Parse, LegalOperand;
    OperandInPlace(hs, hi, Nil);
    OperandInPlace(ls, lo, Cons(Kw(AND), hs));
    OperandInPlace(xs, x, Cons(Kw(BETWEEN), Append(ls, Cons(Kw(AND), hs))));
    BetweenTakesAll(hi);
    Accepts(Between(x, lo, hi), Append(xs, Cons(Kw(BETWEEN), Append(ls, Cons(Kw(AND), hs)))));
  }

  // ----- nested selects -----

  /** `( select )`. */
  function Selected(id: nat): List<Token> {
    Cons(Sym('('), Cons(SubQuery(id), Cons(Sym(')'), Nil)))
  }

  lemma SelectForm(id: nat)
    ensures IsOperand(Selected(id), SubSelect(id))
  {
    AcceptsOperand(SubSelect(id), Selected(id));
  }

  function ExistsWords(negated: bool, id: nat): List<Token> {
    if negated then Cons(Kw(NOT), Cons(Kw(EXISTS), Selected(id))) else Cons(Kw(EXISTS), Selected(id))
  }

  lemma ExistsForm(negated: bool, id: nat)
    ensures Is(ExistsWords(negated, id), Exists(negated, id))
  {
    hide Parse;
    Accepts(Exists(negated, id), ExistsWords(negated, id));
  }

  /** What stands behind the subject of an IN over a nested select. */
  function InSelectWords(negated: bool, id: nat): List<Token> {
    if negated then Cons(Kw(NOT), Cons(Kw(IN), Selected(id))) else Cons(Kw(IN), Selected(id))
  }

  lemma InSelectForm(xs: List<Token>, x: Operand, negated: bool, id: nat)
    requires IsOperand(xs, x)
    ensures Parse(Append(xs, InSelectWords(negated, id)))
         == if negated && EndsInNot(x) then None else Some(InSelect(x, negated, id))
  {
    hide Parse;
    OperandInPlace(xs, x, InSelectWords(negated, id));
    NotInSelectReading(x, negated, id);
  }

  // ----- lists -----

  /** An element of a list: its tokens, and its alias with AS or without, as a word or in quotes. */
  datatype Element = Element(tokens: List<Token>, tree: Expr, alias: Option<string>, as_: bool, quoted: bool)

  function AliasWords(e: Element, ts: List<Token>): List<Token> {
    if e.alias.None? then ts
    else
      var name := Cons(if e.quoted then Str(e.alias.value) else Ident(e.alias.value), ts);
      if e.as_ then Cons(Kw(AS), name) else name
  }

  function ElementTokens(e: Element, ts: List<Token>): List<Token> {
    Append(e.tokens, AliasWords(e, ts))
  }

  /** The elements with commas between them. */
  function ListTokens(es: seq<Element>, ts: List<Token>): List<Token>
    decreases |es|
  {
    if es == [] then ts
    else if |es| == 1 then ElementTokens(es[0], ts)
    else ListTokens(es[..|es| - 1], Cons(Sym(','), ElementTokens(es[|es| - 1], ts)))
  }

  predicate AllAre(es: seq<Element>) {
    forall e | e in es :: Is(e.tokens, e.tree)
  }

  function AliasOf(e: Element): Alias {
    if e.alias.None? then NoAlias
    else
      var name := if e.quoted then Str(e.alias.value) else Ident(e.alias.value);
      if e.as_ then As(name) else Bare(name)
  }

  function ItemsFor(es: seq<Element>): Items
    decreases |es|
  {
    if es == [] then NoItems
    else
      var e := es[|es| - 1];
      Snoc(ItemsFor(es[..|es| - 1]), e.tree, AliasOf(e))
  }

  lemma ElementInPlace(e: Element, ts: List<Token>)
    requires Is(e.tokens, e.tree)
    ensures LegalExpr(e.tree) && LegalAlias(AliasOf(e))
    ensures ElementTokens(e, ts) == ExprTokens(e.tree, AliasTokens(AliasOf(e), ts))
  {
    hide Parse, LegalExpr;
    ExprInPlace(e.tokens, e.tree, AliasWords(e, ts));
  }

  lemma {:induction false} ListInPlace(es: seq<Element>, ts: List<Token>)
    requires AllAre(es)
    ensures LegalItems(ItemsFor(es)) && ListTokens(es, ts) == ItemsTokens(ItemsFor(es), ts)
    ensures ItemsFor(es).Snoc? <==> es != []
    decreases |es|
  {
    hide Parse, Is, LegalExpr, LegalAlias, AliasOf, ElementTokens;
    if es != [] {
      var n := |es| - 1;
      assert AllAre(es[..n]);
      ElementInPlace(es[n], ts);
      ListInPlace(es[..n], Cons(Sym(','), ElementTokens(es[n], ts)));
    }
  }

  /** `( list )`. */
  function Listed(es: seq<Element>): List<Token> {
    Cons(Sym('('), ListTokens(es, Cons(Sym(')'), Nil)))
  }

  lemma InForm(xs: List<Token>, x: Operand, es: seq<Element>)
    requires IsOperand(xs, x) && AllAre(es)
    ensures Is(Append(xs, Cons(Kw(IN), Listed(es))), InList(x, false, ItemsFor(es)))
  {
    hide Parse, ItemsFor, LegalOperand, LegalItems;
    OperandInPlace(xs, x, Cons(Kw(IN), Listed(es)));
    ListInPlace(es, Cons(Sym(')'), Nil));
    Accepts(InList(x, false, ItemsFor(es)), Append(xs, Cons(Kw(IN), Listed(es))));
  }

  lemma NotInForm(xs: List<Token>, x: Operand, es: seq<Element>)
    requires IsOperand(xs, x) && AllAre(es)
    ensures Parse(Append(xs, Cons(Kw(NOT), Cons(Kw(IN), Listed(es)))))
         == if EndsInNot(x) then None else Some(InList(x, true, ItemsFor(es)))
  {
    hide Parse, ItemsFor, LegalOperand, LegalItems;
    OperandInPlace(xs, x, Cons(Kw(NOT), Cons(Kw(IN), Listed(es))));
    ListInPlace(es, Cons(Sym(')'), Nil));
    NotInReading(x, true, ItemsFor(es));
  }

  /** A call with the arguments `es`. */
  function CallWords(f: Token, distinct: bool, es: seq<Element>): List<Token> {
    var list := ListTokens(es, Cons(Sym(')'), Nil));
    Cons(f, Cons(Sym('('), if distinct then Cons(Kw(DISTINCT), list) else list))
  }

  lemma CallForm(f: Token, distinct: bool, es: seq<Element>)
    requires NameIn(f).Some? && AllAre(es) && (distinct ==> es != [])
    ensures IsOperand(CallWords(f, distinct, es), Call(f, distinct, ItemsFor(es)))
  {
    hide Parse, ItemsFor, LegalItems;
    ListInPlace(es, Cons(Sym(')'), Nil));
    AcceptsOperand(Call(f, distinct, ItemsFor(es)), CallWords(f, distinct, es));
  }

  // ----- CASE -----

  datatype Branch = Branch(when: List<Token>, whenTree: Expr, then_: List<Token>, thenTree: Expr)

  function BranchTokens(bs: seq<Branch>, ts: List<Token>): List<Token>
    decreases |bs|
  {
    if bs == [] then ts
    else
      var b := bs[|bs| - 1];
      BranchTokens(bs[..|bs| - 1], Cons(Kw(WHEN), Append(b.when, Cons(Kw(THEN), Append(b.then_, ts)))))
  }

  predicate AllBranchesAre(bs: seq<Branch>) {
    forall b | b in bs :: Is(b.when, b.whenTree) && Is(b.then_, b.thenTree)
  }

  function ArmsFor(bs: seq<Branch>): Arms
    decreases |bs|
  {
    if bs == [] then NoArms
    else Arm(ArmsFor(bs[..|bs| - 1]), bs[|bs| - 1].whenTree, bs[|bs| - 1].thenTree)
  }

  lemma {:induction false} BranchesInPlace(bs: seq<Branch>, ts: List<Token>)
    requires AllBranchesAre(bs)
    ensures LegalArms(ArmsFor(bs)) && BranchTokens(bs, ts) == ArmsTokens(ArmsFor(bs), ts)
    ensures ArmsFor(bs).Arm? <==> bs != []
    decreases |bs|
  {
    hide Parse, Is, LegalExpr;
    if bs != [] {
      var n := |bs| - 1;
      var b := bs[n];
      assert AllBranchesAre(bs[..n]);
      ExprInPlace(b.then_, b.thenTree, ts);
      ExprInPlace(b.when, b.whenTree, Cons(Kw(THEN), Append(b.then_, ts)));
      BranchesInPlace(bs[..n], Cons(Kw(WHEN), Append(b.when, Cons(Kw(THEN), Append(b.then_, ts)))));
    }
  }

  /** An optional part: its tokens and its tree. */
  datatype Part = Absent | Present(tokens: List<Token>, tree: Expr)

  predicate PartIs(p: Part) {
    p.Present? ==> Is(p.tokens, p.tree)
  }

  function OptFor(p: Part): OptExpr {
    match p
    case Absent => NoExpr
    case Present(_, e) => SomeExpr(e)
  }

  function CaseWords(base: Part, bs: seq<Branch>, otherwise: Part): List<Token> {
    var ending := Cons(Kw(END), Nil);
    var closing := if otherwise.Absent? then ending else Cons(Kw(ELSE), Append(otherwise.tokens, ending));
    var rest := BranchTokens(bs, closing);
    Cons(Kw(CASE), if base.Absent? then rest else Append(base.tokens, rest))
  }

  lemma PartInPlace(p: Part, ts: List<Token>)
    requires PartIs(p)
    ensures LegalOpt(OptFor(p))
    ensures OptTokens(OptFor(p), ts) == if p.Absent? then ts else Append(p.tokens, ts)
    ensures ElseTokens(OptFor(p), ts) == if p.Absent? then ts else Cons(Kw(ELSE), Append(p.tokens, ts))
  {
    hide Parse, LegalExpr;
    if p.Present? {
      ExprInPlace(p.tokens, p.tree, ts);
    }
  }

  lemma CaseForm(base: Part, bs: seq<Branch>, otherwise: Part)
    requires PartIs(base) && AllBranchesAre(bs) && PartIs(otherwise) && bs != []
    ensures IsOperand(CaseWords(base, bs, otherwise), Case(OptFor(base), ArmsFor(bs), OptFor(otherwise)))
  {
    hide Parse, LegalArms, LegalOpt, ArmsFor, OptFor, PartIs;
    var ending := Cons(Kw(END), Nil);
    var closing := if otherwise.Absent? then ending else Cons(Kw(ELSE), Append(otherwise.tokens, ending));
    PartInPlace(otherwise, ending);
    BranchesInPlace(bs, closing);
    PartInPlace(base, BranchTokens(bs, closing));
    AcceptsOperand(Case(OptFor(base), ArmsFor(bs), OptFor(otherwise)), CaseWords(base, bs, otherwise));
  }

  // ----- what is no form -----

  /** Where a list of arguments has reached the end of its first expression. */
  lemma InsideCall(f: Token, xs: List<Token>, x: Expr, ts: List<Token>)
    requires NameIn(f).Some? && Is(xs, x) && Ends(ts) && ts.Cons? && ts.head != Kw(AND) && ts.head != Kw(OR)
    ensures Parse(Cons(f, Cons(Sym('('), Append(xs, ts))))
         == Run(HaveExpr(x, Push(ListI(CallHead(f, false), NoItems), Bottom)), ts)
  {
    hide Run, Step;
    RunDecides();
    ExprInPlace(xs, x, ts);
    ExprHead(x, ts);
    StartsCall(Run, f, false, Bottom, ExprTokens(x, ts));
    RunsNested(Run, x, Push(ListI(CallHead(f, false), NoItems), Bottom), ts);
  }

  /** An alias is an identifier or a string; the other tokens that may be names cannot be aliases. */
  lemma OnlyAliases(f: Token, xs: List<Token>, x: Expr, t: Token, rest: List<Token>)
    requires NameIn(f).Some? && Is(xs, x) && !t.Ident? && !t.Str?
    ensures Parse(Cons(f, Cons(Sym('('), Append(xs, Cons(Kw(AS), Cons(t, rest)))))) == None
    ensures NameIn(t).Some? ==> Parse(Cons(f, Cons(Sym('('), Append(xs, Cons(t, rest))))) == None
  {
    hide Parse;
    var k := Push(ListI(CallHead(f, false), NoItems), Bottom);
    InsideCall(f, xs, x, Cons(Kw(AS), Cons(t, rest)));
    assert Step(HaveExpr(x, k), Cons(Kw(AS), Cons(t, rest))) == Reject;
    if NameIn(t).Some? {
      InsideCall(f, xs, x, Cons(t, rest));
      assert Step(HaveExpr(x, k), Cons(t, rest)) == Reject;
    }
  }

  /** A CASE has at least one arm, and DISTINCT at least one argument. */
  lemma NothingIsMissing(f: Token, xs: List<Token>, x: Expr, rest: List<Token>)
    requires NameIn(f).Some? && Is(xs, x)
    ensures Parse(Cons(Kw(CASE), Cons(Kw(END), rest))) == None
    ensures Parse(Cons(Kw(CASE), Append(xs, Cons(Kw(END), rest)))) == None
    ensures Parse(Cons(f, Cons(Sym('('), Cons(Kw(DISTINCT), Cons(Sym(')'), rest))))) == None
  {
    hide Is;
    EmptyCaseRejects(rest);
    EmptyDistinctRejects(f, rest);
    ExprInPlace(xs, x, Cons(Kw(END), rest));
    BaseAloneRejects(x, rest);
  }

  lemma EmptyCaseRejects(rest: List<Token>)
    ensures Parse(Cons(Kw(CASE), Cons(Kw(END), rest))) == None
  {
    var ending := Cons(Kw(END), rest);
    assert Step(Want(Bottom), Cons(Kw(CASE), ending)) == Next(Want(Push(BaseI, Bottom)), ending);
    assert Step(Want(Push(BaseI, Bottom)), ending) == Reject;
  }

  lemma EmptyDistinctRejects(f: Token, rest: List<Token>)
    requires NameIn(f).Some?
    ensures Parse(Cons(f, Cons(Sym('('), Cons(Kw(DISTINCT), Cons(Sym(')'), rest))))) == None
  {
    var k := Push(ListI(CallHead(f, true), NoItems), Bottom);
    assert Step(Want(Bottom), Cons(f, Cons(Sym('('), Cons(Kw(DISTINCT), Cons(Sym(')'), rest)))))
        == Next(Want(k), Cons(Sym(')'), rest));
    assert Step(Want(k), Cons(Sym(')'), rest)) == Reject;
  }

  lemma BaseAloneRejects(x: Expr, rest: List<Token>)
    requires LegalExpr(x)
    ensures Parse(Cons(Kw(CASE), ExprTokens(x, Cons(Kw(END), rest)))) == None
  {
    hide LegalExpr, ExprTokens;
    RunDecides();
    var ending := Cons(Kw(END), rest);
    ExprHead(x, ending);
    StartsBase(ExprTokens(x, ending));
    RunsNested(Run, x, Push(BaseI, Bottom), ending);
    assert Step(HaveExpr(x, Push(BaseI, Bottom)), ending) == Reject;
  }

  lemma StartsBase(ts: List<Token>)
    requires ts.Cons? && ts.head != Kw(WHEN)
    ensures Run(Want(Bottom), Cons(Kw(CASE), ts)) == Run(Want(Push(BaseI, Bottom)), ts)
  {
    assert Step(Want(Bottom), Cons(Kw(CASE), ts)) == Next(Want(Push(BaseI, Bottom)), ts);
  }
}
