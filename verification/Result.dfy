/**
 The result object: which statements it owns, and its list of parameters.
 */
module Result {
  import opened Memory

  /** A parsed statement: an opaque object. */
  class SQLStatement {
    constructor () {}
  }

  /** No later element has a smaller `ival`. */
  ghost predicate Ordered(xs: seq<Expr>)
    reads xs
  {
    forall i, j :: 0 <= i < j < |xs| ==> xs[i].ival <= xs[j].ival
  }

  ghost predicate StrictlyOrdered(xs: seq<Expr>)
    reads xs
  {
    forall i, j :: 0 <= i < j < |xs| ==> xs[i].ival < xs[j].ival
  }

  lemma LastOfBoth(xs: seq<Expr>, ys: seq<Expr>)
    requires StrictlyOrdered(xs) && Ordered(ys) && multiset(xs) == multiset(ys) && xs != []
    ensures |ys| == |xs| && ys[|xs| - 1] == xs[|xs| - 1]
  {
    assert |multiset(xs)| == |multiset(ys)|;
    var n := |xs| - 1;
    assert xs[n] in multiset(ys) && ys[n] in multiset(xs);
    var i :| 0 <= i <= n && xs[i] == ys[n];
    var j :| 0 <= j <= n && ys[j] == xs[n];
    assert ys[j].ival <= ys[n].ival;
    assert i == n;
  }

  lemma SplitLast<T>(xs: seq<T>)
    requires xs != []
    ensures multiset(xs) == multiset(xs[..|xs| - 1]) + multiset{xs[|xs| - 1]}
  {
    assert xs == xs[..|xs| - 1] + [xs[|xs| - 1]];
  }

  lemma Cancel<T>(a: multiset<T>, b: multiset<T>, c: multiset<T>)
    requires a + c == b + c
    ensures a == b
  {
    assert a == (a + c) - c && b == (b + c) - c;
  }

  lemma Regroup<T>(a: multiset<T>, b: multiset<T>, c: multiset<T>)
    ensures a + b + c == a + (b + c) == b + (a + c)
  {}

  lemma EmptyOrder<T>(ys: seq<T>)
    requires multiset(ys) == multiset{}
    ensures ys == []
  {
    assert |multiset(ys)| == |ys|;
  }

  /** Sorting leaves a strictly ordered list as it is. */
  lemma {:induction false} OrderIsUnique(xs: seq<Expr>, ys: seq<Expr>)
    requires StrictlyOrdered(xs) && Ordered(ys) && multiset(xs) == multiset(ys)
    ensures xs == ys
  {
    if xs == [] {
      EmptyOrder(ys);
    } else {
      LastOfBoth(xs, ys);
      var n := |xs| - 1;
      SplitLast(xs);
      SplitLast(ys);
      Cancel(multiset(xs[..n]), multiset(ys[..n]), multiset{xs[n]});
      OrderIsUnique(xs[..n], ys[..n]);
      assert xs == xs[..n] + [xs[n]] && ys == ys[..n] + [ys[n]];
    }
  }

  lemma InsertedElements<T>(xs: seq<T>, k: nat, x: T)
    requires k <= |xs|
    ensures multiset(xs[..k] + [x] + xs[k..]) == multiset(xs) + multiset{x}
  {
    assert xs == xs[..k] + xs[k..];
    Regroup(multiset(xs[..k]), multiset{x}, multiset(xs[k..]));
  }

  /** Inserts `x` behind the elements that are not larger. */
  method Insert(xs: seq<Expr>, x: Expr) returns (ys: seq<Expr>)
    requires Ordered(xs)
    ensures Ordered(ys) && multiset(ys) == multiset(xs) + multiset{x}
  {
    var k := |xs|;
    while k > 0 && xs[k - 1].ival > x.ival
      invariant 0 <= k <= |xs| && forall i | k <= i < |xs| :: x.ival < xs[i].ival
    {
      k := k - 1;
    }
    assert forall i | 0 <= i < k :: xs[i].ival <= x.ival;
    ys := xs[..k] + [x] + xs[k..];
    assert forall i | 0 <= i < |ys| :: ys[i] == if i < k then xs[i] else if i == k then x else xs[i - 1];
    InsertedElements(xs, k, x);
  }

  /** `std::sort` by `ival`. */
  method Sort(xs: seq<Expr>) returns (ys: seq<Expr>)
    ensures Ordered(ys) && multiset(ys) == multiset(xs)
  {
    ys := [];
    for i := 0 to |xs|
      invariant Ordered(ys) && multiset(ys) == multiset(xs[..i])
    {
      ys := Insert(ys, xs[i]);
      assert xs[..i + 1] == xs[..i] + [xs[i]];
    }
    assert xs[..|xs|] == xs;
  }

  class SQLParserResult {
    var isValid_: bool
    var errorMsg_: CString?
    var statements_: seq<SQLStatement>
    var parameters_: seq<Expr>
    var errorLine_: int
    var errorColumn_: int

    /** The objects that the result deletes when it is reset. */
    ghost function Owns(): Store
      reads this
    {
      multiset(statements_) + One(errorMsg_)
    }

    constructor ()
      ensures !isValid_ && errorMsg_ == null && statements_ == [] && parameters_ == []
    {
      isValid_, errorMsg_, statements_, parameters_ := false, null, [], [];
      errorLine_, errorColumn_ := *, *;
    }

    /** The move constructor: `moved` is left like a result that was just reset. Its parameters stay
        where they are. */
    constructor Move(moved: SQLParserResult, live: Store)
      requires moved.Owns() <= live
      modifies moved
      ensures isValid_ == old(moved.isValid_) && errorMsg_ == old(moved.errorMsg_)
      ensures statements_ == old(moved.statements_) && parameters_ == []
      ensures moved.WasReset() && moved.parameters_ == old(moved.parameters_)
      ensures fresh(this) && moved != this
    {
      isValid_, errorMsg_, statements_, parameters_ := moved.isValid_, moved.errorMsg_, moved.statements_, [];
      errorLine_, errorColumn_ := *, *;
      new;
      moved.statements_ := [];
      moved.errorMsg_ := null;
      var _ := moved.Reset(live, live);
    }

    ghost predicate WasReset()
      reads this
    {
      statements_ == [] && errorMsg_ == null && !isValid_ && errorLine_ == -1 && errorColumn_ == -1
    }

    constructor FromStatement(stmt: SQLStatement)
      ensures !isValid_ && errorMsg_ == null && statements_ == [stmt] && parameters_ == []
    {
      isValid_, errorMsg_, statements_, parameters_ := false, null, [stmt], [];
      errorLine_, errorColumn_ := *, *;
    }

    /** The result takes over the message and forgets the one it had. Nothing is freed, so of what is
        allocated an object is left without an owner if and only if there was a message before. */
    method SetErrorDetails(errorMsg: CString, errorLine: int, errorColumn: int, ghost live: Store, ghost rest: Store)
      returns (ghost lost: Store)
      requires live == Owns() + One(errorMsg) + rest
      modifies this`errorMsg_, this`errorLine_, this`errorColumn_
      ensures errorMsg_ == errorMsg && errorLine_ == errorLine && errorColumn_ == errorColumn
      ensures live == Owns() + lost + rest && lost == One(old(errorMsg_))
      ensures lost != multiset{} <==> old(errorMsg_) != null
    {
      lost := One(errorMsg_);
      assert live == multiset(statements_) + One(errorMsg) + lost + rest;
      errorMsg_ := errorMsg;
      errorLine_, errorColumn_ := errorLine, errorColumn;
    }

    /** The result takes over the statement. */
    method AddStatement(stmt: SQLStatement)
      modifies this`statements_
      ensures statements_ == old(statements_) + [stmt]
    {
      statements_ := statements_ + [stmt];
    }

    /** The caller takes over the statements. */
    method ReleaseStatements() returns (copy: seq<SQLStatement>)
      modifies this`statements_
      ensures copy == old(statements_) && statements_ == []
    {
      copy := statements_;
      statements_ := [];
    }

    method DeleteStatements(live: Store, ghost rest: Store) returns (after: Store)
      requires live == multiset(statements_) + rest
      ensures after == rest
    {
      after := live;
      var i := 0;
      assert statements_[0..] == statements_;
      while i < |statements_|
        invariant 0 <= i <= |statements_|
        invariant after == multiset(statements_[i..]) + rest
      {
        ghost var others := statements_[i + 1..];
        assert statements_[i..] == [statements_[i]] + others;
        after := Release(after, statements_[i], multiset(others) + rest);
        i := i + 1;
      }
    }

    method DeleteOwned(live: Store, ghost rest: Store) returns (after: Store)
      requires live == Owns() + rest
      ensures after == rest
    {
      Regroup(multiset(statements_), One(errorMsg_), rest);
      after := DeleteStatements(live, One(errorMsg_) + rest);
      after := Release(after, errorMsg_, rest);
    }

    /** Deletes the statements in order, then the error message. Everything the result owned is freed,
        each object once, and nothing else. */
    method Reset(live: Store, ghost rest: Store) returns (after: Store)
      requires live == Owns() + rest
      modifies this
      ensures after == rest && WasReset() && parameters_ == old(parameters_)
    {
      after := DeleteOwned(live, rest);
      statements_ := [];
      isValid_ := false;
      errorMsg_ := null;
      errorLine_, errorColumn_ := -1, -1;
    }

    /** Does not take ownership. */
    method AddParameter(parameter: Expr)
      modifies this`parameters_
      ensures Ordered(parameters_) && multiset(parameters_) == multiset(old(parameters_)) + multiset{parameter}
      ensures StrictlyOrdered(old(parameters_) + [parameter]) ==> parameters_ == old(parameters_) + [parameter]
    {
      var sorted := Sort(parameters_ + [parameter]);
      if StrictlyOrdered(parameters_ + [parameter]) {
        OrderIsUnique(parameters_ + [parameter], sorted);
      }
      parameters_ := sorted;
    }
  }

  // ----- the parameters of a whole input -----

  function NonNull(xs: seq<Expr?>): (r: seq<Expr>)
    ensures forall e | e in r :: e in xs
  {
    if xs == [] then []
    else if xs[|xs| - 1] == null then NonNull(xs[..|xs| - 1])
    else NonNull(xs[..|xs| - 1]) + [xs[|xs| - 1]]
  }

  ghost predicate Distinct(xs: seq<Expr?>) {
    forall i, j :: 0 <= i < j < |xs| && xs[i] != null ==> xs[i] != xs[j]
  }

  /** The action of `input`: the statements move into the result, and the parameters of the whole
      input are numbered in the order of the list. */
  method FinishInput(result: SQLParserResult, statements: seq<SQLStatement>, paramList: seq<Expr?>)
    requires result.parameters_ == [] && Distinct(paramList)
    modifies result`statements_, result`parameters_, (set e: Expr | e in paramList)`ival
    ensures result.statements_ == old(result.statements_) + statements
    ensures result.parameters_ == NonNull(paramList)
    ensures forall k | 0 <= k < |result.parameters_| :: result.parameters_[k].ival == k
  {
    for i := 0 to |statements|
      invariant result.statements_ == old(result.statements_) + statements[..i]
      invariant result.parameters_ == []
    {
      result.AddStatement(statements[i]);
      assert statements[..i + 1] == statements[..i] + [statements[i]];
    }
    assert statements[..|statements|] == statements;
    var paramId := 0;
    for i := 0 to |paramList|
      invariant result.statements_ == old(result.statements_) + statements
      invariant result.parameters_ == NonNull(paramList[..i]) && paramId == |result.parameters_|
      invariant forall k | 0 <= k < paramId :: result.parameters_[k].ival == k
    {
      assert paramList[..i + 1][..i] == paramList[..i];
      var param := paramList[i];
      if param != null {
        assert param !in paramList[..i];
        param.ival := paramId;
        result.AddParameter(param);
        paramId := paramId + 1;
      }
    }
    assert paramList[..|paramList|] == paramList;
  }

  // ----- many results -----

  /** What a program does with its results. An index that is out of range does nothing. */
  datatype Op = Create | Add(r: nat) | MoveOut(r: nat) | ReleaseAll(r: nat) | ResetOne(r: nat) | Destroy(r: nat)

  /** The results, the statements that the program took out of them, and the allocated objects. */
  datatype World = World(results: seq<SQLParserResult>, released: seq<SQLStatement>, live: Store)

  /** Where every statement is: in which result and in which order, released, or deleted; and how many
      were added. */
  datatype Ledger = Ledger(contents: seq<seq<SQLStatement>>, released: seq<SQLStatement>,
      deleted: seq<SQLStatement>, used: nat)

  const EMPTY_LEDGER := Ledger([], [], [], 0)

  /** What one operation does; an added statement is the next one of `names`. */
  ghost function Effect(l: Ledger, op: Op, names: seq<SQLStatement>): Ledger
    requires op.Add? && op.r < |l.contents| ==> l.used < |names|
  {
    if op.Create? then l.(contents := l.contents + [[]])
    else if op.r >= |l.contents| then l
    else
      var c := l.contents[op.r];
      var emptied := l.contents[op.r := []];
      match op
      case Add(k) => l.(contents := l.contents[k := c + [names[l.used]]], used := l.used + 1)
      case MoveOut(k) => l.(contents := emptied + [c])
      case ReleaseAll(k) => l.(contents := emptied, released := l.released + c)
      case ResetOne(k) => l.(contents := emptied, deleted := l.deleted + c)
      case Destroy(k) => l.(contents := emptied[..k] + emptied[k + 1..], deleted := l.deleted + c)
  }

  /** The number of results after some operations. */
  function Alive(ops: seq<Op>): nat {
    if ops == [] then 0
    else
      var n := Alive(ops[..|ops| - 1]);
      var op := ops[|ops| - 1];
      if op.Create? || (op.MoveOut? && op.r < n) then n + 1 else if op.Destroy? && op.r < n then n - 1 else n
  }

  /** The number of statements they add. */
  function Adds(ops: seq<Op>): nat {
    if ops == [] then 0
    else Adds(ops[..|ops| - 1]) + if ops[|ops| - 1].Add? && ops[|ops| - 1].r < Alive(ops[..|ops| - 1]) then 1 else 0
  }

  /** Where the statements are after some operations, when the k-th added statement is `names[k]`. */
  ghost function Play(ops: seq<Op>, names: seq<SQLStatement>): (l: Ledger)
    requires Adds(ops) <= |names|
    ensures |l.contents| == Alive(ops) && l.used == Adds(ops)
  {
    if ops == [] then EMPTY_LEDGER else Effect(Play(ops[..|ops| - 1], names), ops[|ops| - 1], names)
  }

  /** All lists but the k-th are the same in both. */
  ghost predicate SameBut(c: seq<seq<SQLStatement>>, c': seq<seq<SQLStatement>>, k: nat) {
    |c| <= |c'| && forall i | 0 <= i < |c| && i != k :: c'[i] == c[i]
  }

  /** One operation, case by case: `l` before, `l'` behind it. */
  ghost predicate Moves(l: Ledger, l': Ledger, op: Op, names: seq<SQLStatement>) {
    var n := |l.contents|;
    match op
    case Create =>
      l'.contents == l.contents + [[]] && l'.released == l.released && l'.deleted == l.deleted
    case Add(k) =>
      && l'.released == l.released && l'.deleted == l.deleted
      && |l'.contents| == n && SameBut(l.contents, l'.contents, k)
      && (k < n ==> l.used < |names| && l'.contents[k] == l.contents[k] + [names[l.used]])
    case MoveOut(k) =>
      && l'.released == l.released && l'.deleted == l.deleted && SameBut(l.contents, l'.contents, k)
      && if k < n then |l'.contents| == n + 1 && l'.contents[k] == [] && l'.contents[n] == l.contents[k]
         else |l'.contents| == n
    case ReleaseAll(k) =>
      && l'.deleted == l.deleted && |l'.contents| == n && SameBut(l.contents, l'.contents, k)
      && if k < n then l'.contents[k] == [] && l'.released == l.released + l.contents[k]
         else l'.released == l.released
    case ResetOne(k) =>
      && l'.released == l.released && |l'.contents| == n && SameBut(l.contents, l'.contents, k)
      && if k < n then l'.contents[k] == [] && l'.deleted == l.deleted + l.contents[k]
         else l'.deleted == l.deleted
    case Destroy(k) =>
      && l'.released == l.released
      && if k < n then
           l'.contents == l.contents[..k] + l.contents[k + 1..] && l'.deleted == l.deleted + l.contents[k]
         else l'.contents == l.contents && l'.deleted == l.deleted
  }

  lemma LedgerMoves(ops: seq<Op>, op: Op, names: seq<SQLStatement>)
    requires Adds(ops + [op]) <= |names|
    ensures Adds(ops) <= |names| && Moves(Play(ops, names), Play(ops + [op], names), op, names)
  {
    hide Moves;
    assert (ops + [op])[..|ops|] == ops;
    EffectMoves(Play(ops, names), op, names);
  }

  lemma EffectMoves(l: Ledger, op: Op, names: seq<SQLStatement>)
    requires op.Add? && op.r < |l.contents| ==> l.used < |names|
    ensures Moves(l, Effect(l, op, names), op, names)
  {}

  /** The statements are `names` at increasing places. */
  ghost predicate InAddOrder(c: seq<SQLStatement>, names: seq<SQLStatement>, bound: nat) {
    exists at: seq<nat> :: |at| == |c| && Increasing(at, bound) && bound <= |names|
                           && forall i | 0 <= i < |c| :: at[i] < |names| && c[i] == names[at[i]]
  }

  predicate Increasing(at: seq<nat>, bound: nat) {
    (forall i, j | 0 <= i < j < |at| :: at[i] < at[j]) && forall i | 0 <= i < |at| :: at[i] < bound
  }

  /** However the statements were moved from result to result, every result has its statements in the
      order in which they were added. */
  lemma {:induction false} ContentsAreInOrder(ops: seq<Op>, names: seq<SQLStatement>, k: nat)
    requires Adds(ops) <= |names| && k < |Play(ops, names).contents|
    ensures InAddOrder(Play(ops, names).contents[k], names, Adds(ops))
  {
    hide InAddOrder, Effect;
    var n := |ops| - 1;
    var before, op := ops[..n], ops[n];
    assert ops == before + [op];
    LedgerMoves(before, op, names);
    var l := Play(before, names);
    var from := if op.Destroy? && op.r < |l.contents| && k >= op.r then k + 1
                else if op.MoveOut? && k == |l.contents| then op.r else k;
    if from < |l.contents| {
      ContentsAreInOrder(before, names, from);
    }
    if op.Add? && op.r == k && k < |l.contents| {
      OneMoreInAddOrder(l.contents[k], names, Adds(before));
    } else if from < |l.contents| {
      LaterBound(l.contents[from], names, Adds(before), Adds(ops));
    }
    EmptyInAddOrder(names, Adds(ops));
  }

  lemma OneMoreInAddOrder(c: seq<SQLStatement>, names: seq<SQLStatement>, bound: nat)
    requires InAddOrder(c, names, bound) && bound < |names|
    ensures InAddOrder(c + [names[bound]], names, bound + 1)
  {
    var at: seq<nat> :| |at| == |c| && Increasing(at, bound)
                        && forall i | 0 <= i < |c| :: at[i] < |names| && c[i] == names[at[i]];
    var at' := at + [bound];
    assert Increasing(at', bound + 1);
  }

  lemma LaterBound(c: seq<SQLStatement>, names: seq<SQLStatement>, bound: nat, bound': nat)
    requires InAddOrder(c, names, bound) && bound <= bound' <= |names|
    ensures InAddOrder(c, names, bound')
  {
    var at: seq<nat> :| |at| == |c| && Increasing(at, bound)
                        && forall i | 0 <= i < |c| :: at[i] < |names| && c[i] == names[at[i]];
    assert Increasing(at, bound');
  }

  lemma EmptyInAddOrder(names: seq<SQLStatement>, bound: nat)
    requires bound <= |names|
    ensures InAddOrder([], names, bound)
  {
    assert Increasing([], bound);
  }

  /** Statements that are added later do not matter. */
  lemma {:induction false} PlayIgnoresLater(ops: seq<Op>, names: seq<SQLStatement>, s: SQLStatement)
    requires Adds(ops) <= |names|
    ensures Play(ops, names + [s]) == Play(ops, names)
  {
    if ops != [] {
      PlayIgnoresLater(ops[..|ops| - 1], names, s);
    }
  }

  /** The statements inside all results. */
  ghost function StatementsIn(contents: seq<seq<SQLStatement>>): multiset<SQLStatement> {
    if contents == [] then multiset{} else StatementsIn(contents[..|contents| - 1]) + multiset(contents[|contents| - 1])
  }

  ghost predicate Tracks(results: seq<SQLParserResult>, contents: seq<seq<SQLStatement>>)
    reads results
  {
    && |results| == |contents|
    && (forall i | 0 <= i < |results| :: results[i].statements_ == contents[i] && results[i].errorMsg_ == null)
    && forall i, j :: 0 <= i < j < |results| ==> results[i] != results[j]
  }

  /** Each added statement is in one result, or was released, or was deleted; none of them twice; and
      what was not deleted is allocated. */
  ghost predicate Kept(w: World, l: Ledger, names: seq<SQLStatement>, base: Store)
    reads w.results
  {
    && Tracks(w.results, l.contents) && w.released == l.released
    && StatementsIn(l.contents) + multiset(l.released) + multiset(l.deleted) == multiset(names)
    && base + StatementsIn(l.contents) + multiset(l.released) == w.live
    && (forall s | s in names :: multiset(names)[s] == 1 && s !in base)
  }

  lemma TotalSnoc(contents: seq<seq<SQLStatement>>, c: seq<SQLStatement>)
    ensures StatementsIn(contents + [c]) == StatementsIn(contents) + multiset(c)
  {
    assert (contents + [c])[..|contents|] == contents;
  }

  lemma SwapInside<T>(a: multiset<T>, old_: multiset<T>, b: multiset<T>, new_: multiset<T>, m: multiset<T>)
    requires a + old_ == b + new_
    ensures (a + m) + old_ == (b + m) + new_
  {
    Regroup(a, m, old_);
    Regroup(b, m, new_);
  }

  lemma {:induction false} TotalUpdate(contents: seq<seq<SQLStatement>>, i: nat, c: seq<SQLStatement>)
    requires i < |contents|
    ensures StatementsIn(contents[i := c]) + multiset(contents[i]) == StatementsIn(contents) + multiset(c)
  {
    var n := |contents| - 1;
    if i < n {
      TotalUpdate(contents[..n], i, c);
      assert contents[i := c][..n] == contents[..n][i := c] && contents[i := c][n] == contents[n];
      SwapInside(StatementsIn(contents[..n][i := c]), multiset(contents[i]), StatementsIn(contents[..n]),
          multiset(c), multiset(contents[n]));
    } else {
      assert contents[i := c][..n] == contents[..n] && contents[i := c][n] == c;
    }
  }

  lemma TotalAdd(contents: seq<seq<SQLStatement>>, i: nat, s: SQLStatement)
    requires i < |contents|
    ensures StatementsIn(contents[i := contents[i] + [s]]) == StatementsIn(contents) + multiset{s}
  {
    TotalUpdate(contents, i, contents[i] + [s]);
    hide StatementsIn;
    Regroup(StatementsIn(contents), multiset{s}, multiset(contents[i]));
    Cancel(StatementsIn(contents[i := contents[i] + [s]]), StatementsIn(contents) + multiset{s}, multiset(contents[i]));
  }

  lemma TotalTake(contents: seq<seq<SQLStatement>>, i: nat)
    requires i < |contents|
    ensures StatementsIn(contents) == StatementsIn(contents[i := []]) + multiset(contents[i])
  {
    TotalUpdate(contents, i, []);
  }

  lemma {:induction false} TotalRemove(contents: seq<seq<SQLStatement>>, i: nat)
    requires i < |contents|
    ensures StatementsIn(contents) == StatementsIn(contents[..i] + contents[i + 1..]) + multiset(contents[i])
  {
    var n := |contents| - 1;
    if i < n {
      TotalRemove(contents[..n], i);
      assert contents[..i] + contents[i + 1..] == (contents[..n][..i] + contents[..n][i + 1..]) + [contents[n]];
      TotalSnoc(contents[..n][..i] + contents[..n][i + 1..], contents[n]);
    } else {
      assert contents[..i] + contents[i + 1..] == contents[..n];
    }
  }

  method DoCreate(w: World, ghost l: Ledger, ghost names: seq<SQLStatement>, ghost base: Store)
    returns (w': World, ghost l': Ledger)
    requires Kept(w, l, names, base)
    ensures l' == Effect(l, Create, names) && Kept(w', l', names, base)
              && fresh(set r | r in w'.results && r !in w.results)
  {
    assert allocated(w.results);
    TotalCreate(l.contents);
    hide StatementsIn;
    var r := new SQLParserResult();
    w', l' := w.(results := w.results + [r]), l.(contents := l.contents + [[]]);
  }

  lemma TotalCreate(contents: seq<seq<SQLStatement>>)
    ensures StatementsIn(contents + [[]]) == StatementsIn(contents)
  {
    TotalSnoc(contents, []);
  }

  lemma AddKeeps(total: multiset<SQLStatement>, released: multiset<SQLStatement>,
                 deleted: multiset<SQLStatement>, base: Store, s: SQLStatement)
    ensures (total + multiset{s}) + released + deleted == (total + released + deleted) + multiset{s}
    ensures base + (total + multiset{s}) + released == (base + total + released) + multiset{s}
  {}

  method DoAdd(w: World, k: nat, ghost l: Ledger, ghost names: seq<SQLStatement>, ghost base: Store)
    returns (w': World, ghost s: SQLStatement, ghost l': Ledger)
    requires Kept(w, l, names, base) && k < |w.results| == |l.contents| && l.used == |names|
    modifies w.results
    ensures l' == Effect(l, Add(k), names + [s]) && Kept(w', l', names + [s], base) && w'.results == w.results
  {
    hide StatementsIn;
    var stmt := new SQLStatement();
    w.results[k].AddStatement(stmt);
    TotalAdd(l.contents, k, stmt);
    AddKeeps(StatementsIn(l.contents), multiset(l.released), multiset(l.deleted), base, stmt);
    w' := w.(live := w.live + multiset{stmt});
    s, l' := stmt, l.(contents := l.contents[k := l.contents[k] + [stmt]], used := l.used + 1);
  }

  lemma MoveKeeps(total: multiset<SQLStatement>, c: multiset<SQLStatement>, released: multiset<SQLStatement>,
                  deleted: multiset<SQLStatement>, base: Store)
    ensures (total + c) + released + deleted == total + released + (deleted + c)
    ensures (total + c) + released + deleted == total + (released + c) + deleted
    ensures base + (total + c) + released == c + (base + total + released)
    ensures base + (total + c) + released == base + total + (released + c)
  {}

  /** The move constructor takes everything the old result held. */
  method DoMove(w: World, k: nat, ghost l: Ledger, ghost names: seq<SQLStatement>, ghost base: Store)
    returns (w': World, ghost l': Ledger)
    requires Kept(w, l, names, base) && k < |w.results| == |l.contents|
    modifies w.results
    ensures l' == Effect(l, MoveOut(k), names) && Kept(w', l', names, base)
              && fresh(set r | r in w'.results && r !in w.results)
  {
    hide StatementsIn;
    assert allocated(w.results);
    TotalTake(l.contents, k);
    MoveKeeps(StatementsIn(l.contents[k := []]), multiset(l.contents[k]), multiset(l.released),
        multiset(l.deleted), base);
    assert One(w.results[k].errorMsg_) == multiset{};
    var r := new SQLParserResult.Move(w.results[k], w.live);
    TotalSnoc(l.contents[k := []], l.contents[k]);
    w' := w.(results := w.results + [r]);
    l' := l.(contents := l.contents[k := []] + [l.contents[k]]);
  }

  method DoRelease(w: World, k: nat, ghost l: Ledger, ghost names: seq<SQLStatement>, ghost base: Store)
    returns (w': World, ghost l': Ledger)
    requires Kept(w, l, names, base) && k < |w.results| == |l.contents|
    modifies w.results
    ensures l' == Effect(l, ReleaseAll(k), names) && Kept(w', l', names, base) && w'.results == w.results
  {
    hide StatementsIn;
    TotalTake(l.contents, k);
    MoveKeeps(StatementsIn(l.contents[k := []]), multiset(l.contents[k]), multiset(l.released),
        multiset(l.deleted), base);
    var copy := w.results[k].ReleaseStatements();
    w' := w.(released := w.released + copy);
    l' := l.(contents := l.contents[k := []], released := l.released + l.contents[k]);
  }

  method DoReset(w: World, k: nat, ghost l: Ledger, ghost names: seq<SQLStatement>, ghost base: Store)
    returns (w': World, ghost l': Ledger)
    requires Kept(w, l, names, base) && k < |w.results| == |l.contents|
    modifies w.results
    ensures l' == Effect(l, ResetOne(k), names) && Kept(w', l', names, base) && w'.results == w.results
    ensures w.results[k].statements_ == []
  {
    hide StatementsIn;
    TotalTake(l.contents, k);
    ghost var c := l.contents[k];
    MoveKeeps(StatementsIn(l.contents[k := []]), multiset(c), multiset(l.released), multiset(l.deleted), base);
    assert One(w.results[k].errorMsg_) == multiset{};
    ghost var rest := base + StatementsIn(l.contents[k := []]) + multiset(l.released);
    var live := w.results[k].Reset(w.live, rest);
    w' := w.(live := live);
    l' := l.(contents := l.contents[k := []], deleted := l.deleted + c);
  }

  lemma RemoveTracks(results: seq<SQLParserResult>, contents: seq<seq<SQLStatement>>, k: nat)
    requires Tracks(results, contents) && k < |results|
    ensures Tracks(results[..k] + results[k + 1..], contents[..k] + contents[k + 1..])
  {}

  lemma TotalRemoveEmpty(contents: seq<seq<SQLStatement>>, k: nat)
    requires k < |contents| && contents[k] == []
    ensures StatementsIn(contents) == StatementsIn(contents[..k] + contents[k + 1..])
  {
    TotalRemove(contents, k);
    hide StatementsIn;
    assert multiset(contents[k]) == multiset{};
  }

  /** An empty result can go. */
  lemma RemoveKeeps(w: World, l: Ledger, names: seq<SQLStatement>, base: Store, k: nat)
    requires Kept(w, l, names, base) && k < |w.results| == |l.contents| && w.results[k].statements_ == []
    ensures Kept(w.(results := w.results[..k] + w.results[k + 1..]),
        l.(contents := l.contents[..k] + l.contents[k + 1..]), names, base)
  {
    RemoveTracks(w.results, l.contents, k);
    assert l.contents[k] == [];
    hide StatementsIn, Tracks;
    TotalRemoveEmpty(l.contents, k);
  }

  /** Destroying a result resets it. */
  method DoDestroy(w: World, k: nat, ghost l: Ledger, ghost names: seq<SQLStatement>, ghost base: Store)
    returns (w': World, ghost l': Ledger)
    requires Kept(w, l, names, base) && k < |w.results| == |l.contents|
    modifies w.results
    ensures l' == Effect(l, Destroy(k), names) && Kept(w', l', names, base)
        && w'.results == w.results[..k] + w.results[k + 1..]
  {
    hide Kept;
    w', l' := DoReset(w, k, l, names, base);
    RemoveKeeps(w', l', names, base, k);
    w' := w'.(results := w.results[..k] + w.results[k + 1..]);
    l' := l'.(contents := l'.contents[..k] + l'.contents[k + 1..]);
  }

  lemma StartKept(base: Store)
    ensures Kept(World([], [], base), EMPTY_LEDGER, [], base)
  {
    assert base + multiset{} + multiset([]) == base;
  }

  lemma KeptLengths(w: World, l: Ledger, names: seq<SQLStatement>, base: Store)
    requires Kept(w, l, names, base)
    ensures |w.results| == |l.contents|
  {}

  /** One operation on the heap. */
  method Do(w: World, op: Op, ghost l: Ledger, ghost names: seq<SQLStatement>, ghost base: Store)
    returns (w': World, ghost l': Ledger, ghost names': seq<SQLStatement>)
    requires Kept(w, l, names, base) && l.used == |names|
    modifies w.results
    ensures names' == names || (op.Add? && op.r < |l.contents| && exists s :: names' == names + [s])
    ensures |names'| == |names| + if op.Add? && op.r < |l.contents| then 1 else 0
    ensures l' == Effect(l, op, names') && Kept(w', l', names', base) && fresh(set r | r in w'.results && r !in w.results)
  {
    hide Kept;
    KeptLengths(w, l, names, base);
    w', l', names' := w, l, names;
    if op.Create? {
      w', l' := DoCreate(w, l, names, base);
    } else if op.r < |w.results| {
      match op
      case Add(k) =>
        ghost var s;
        w', s, l' := DoAdd(w, k, l, names, base);
        names' := names + [s];
      case MoveOut(k) => w', l' := DoMove(w, k, l, names, base);
      case ReleaseAll(k) => w', l' := DoRelease(w, k, l, names, base);
      case ResetOne(k) => w', l' := DoReset(w, k, l, names, base);
      case Destroy(k) => w', l' := DoDestroy(w, k, l, names, base);
    }
  }

  /** Any sequence of operations on any number of results: `names` are the statements that were added,
      in order, and each of them is where the operations put it. */
  method Execute(ops: seq<Op>, base: Store) returns (w: World, ghost l: Ledger, ghost names: seq<SQLStatement>)
    ensures |names| == Adds(ops) && l == Play(ops, names)
    ensures Kept(w, l, names, base)
    ensures base + multiset(names) == w.live + multiset(l.deleted)
  {
    hide Kept, Effect;
    w, l, names := World([], [], base), EMPTY_LEDGER, [];
    StartKept(base);
    assert ops[..0] == [];
    for i := 0 to |ops|
      invariant Kept(w, l, names, base) && fresh(w.results)
      invariant |names| == Adds(ops[..i]) && l == Play(ops[..i], names)
    {
      ghost var before := names;
      assert ops[..i + 1][..i] == ops[..i];
      w, l, names := Do(w, ops[i], l, names, base);
      if names != before {
        var s :| names == before + [s];
        PlayIgnoresLater(ops[..i], before, s);
      }
    }
    assert ops[..|ops|] == ops;
    NothingLost(w, l, names, base);
  }

  lemma NothingLost(w: World, l: Ledger, names: seq<SQLStatement>, base: Store)
    requires Kept(w, l, names, base)
    ensures base + multiset(names) == w.live + multiset(l.deleted)
  {
    hide StatementsIn, Tracks;
  }

  lemma {:induction false} TotalHas(contents: seq<seq<SQLStatement>>, s: SQLStatement)
    requires s in StatementsIn(contents)
    ensures exists i :: 0 <= i < |contents| && s in contents[i]
  {
    var n := |contents| - 1;
    if s in contents[n] {
    } else {
      TotalHas(contents[..n], s);
      var i :| 0 <= i < n && s in contents[..n][i];
      assert contents[i] == contents[..n][i];
    }
  }

  lemma TotalCounts(contents: seq<seq<SQLStatement>>, i: nat, j: nat, s: SQLStatement)
    requires i < |contents| && j < |contents| && i != j && s in contents[i] && s in contents[j]
    ensures StatementsIn(contents)[s] >= 2
  {
    TotalTake(contents, i);
    TotalTake(contents[i := []], j);
    hide StatementsIn;
    assert contents[i := []][j] == contents[j];
    assert multiset(contents[i])[s] >= 1 && multiset(contents[j])[s] >= 1;
  }

  /** Each added statement is in exactly one place: in one result, with the caller, or deleted; it is
      there once, and it is allocated unless it was deleted. */
  lemma OnePlace(w: World, l: Ledger, names: seq<SQLStatement>, base: Store, s: SQLStatement)
    requires Kept(w, l, names, base) && s in names
    ensures (if s in w.released then 1 else 0) + (if s in l.deleted then 1 else 0)
            + (if exists i :: 0 <= i < |w.results| && s in w.results[i].statements_ then 1 else 0) == 1
    ensures forall i, j | 0 <= i < j < |w.results| ::
              !(s in w.results[i].statements_ && s in w.results[j].statements_)
    ensures multiset(w.released)[s] <= 1 && multiset(l.deleted)[s] <= 1
    ensures s in w.live <==> s !in l.deleted
  {
    hide StatementsIn;
    assert multiset(names)[s] == StatementsIn(l.contents)[s] + multiset(l.released)[s] + multiset(l.deleted)[s];
    assert w.live[s] == base[s] + StatementsIn(l.contents)[s] + multiset(l.released)[s];
    forall i, j | 0 <= i < j < |w.results|
      ensures !(s in w.results[i].statements_ && s in w.results[j].statements_)
    {
      if s in l.contents[i] && s in l.contents[j] {
        TotalCounts(l.contents, i, j, s);
        assert false;
      }
    }
    if s in StatementsIn(l.contents) {
      TotalHas(l.contents, s);
    } else {
      forall i | 0 <= i < |w.results| ensures s !in w.results[i].statements_ {
        TotalTake(l.contents, i);
        assert multiset(l.contents[i])[s] == 0;
      }
    }
  }
}
