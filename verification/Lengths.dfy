/**
 Statement lengths and error positions: how the reductions of `statement_list` and the error handler
 use the location record that the scanner keeps.
 */
module Lengths {
  import opened Tokens
  import Machine
  import Prefixes
  import opened Locations
  import opened Regex
  import opened Rules
  import opened Lexing
  import opened Scanner
  import opened Memory
  import opened Result

  /** A reduced statement; a CREATE TRIGGER holds the statements between its BEGIN and END. */
  datatype Statement = Plain(stringLength: nat) | Trigger(stringLength: nat, body: seq<Statement>)

  /** What the parser does between two looks at the record. `Begin` starts the statement list of a
      trigger; a reduction to `statement_list` takes that list over when the statement is a trigger. */
  datatype Event = Scan | Begin | Reduce(trigger: bool)

  /** All lengths recorded in a list, inside triggers included. */
  function Recorded(list: seq<Statement>): nat
    decreases list
  {
    if list == [] then 0 else Recorded(list[..|list| - 1]) + Length(list[|list| - 1])
  }

  function Length(s: Statement): nat {
    match s
    case Plain(n) => n
    case Trigger(n, body) => n + Recorded(body)
  }

  /** The same over all lists that are not complete yet. */
  function RecordedAll(lists: seq<seq<Statement>>): nat {
    if lists == [] then 0 else RecordedAll(lists[..|lists| - 1]) + Recorded(lists[|lists| - 1])
  }

  lemma RecordedSnoc(list: seq<Statement>, s: Statement)
    ensures Recorded(list + [s]) == Recorded(list) + Length(s)
  {
    assert (list + [s])[..|list|] == list;
  }

  lemma RecordedAllSnoc(lists: seq<seq<Statement>>, list: seq<Statement>)
    ensures RecordedAll(lists + [list]) == RecordedAll(lists) + Recorded(list)
  {
    assert (lists + [list])[..|lists|] == lists;
  }

  /** The lists after a statement of this length is reduced into the innermost one. A trigger first
      takes over its own list. */
  function Reduced(lists: seq<seq<Statement>>, length: nat, trigger: bool): seq<seq<Statement>>
    requires lists != [] && (trigger ==> |lists| >= 2)
  {
    var n := |lists| - 1;
    var s := if trigger then Trigger(length, lists[n]) else Plain(length);
    var m := if trigger then n - 1 else n;
    lists[..m] + [lists[m] + [s]]
  }

  lemma AppendConserves(lists: seq<seq<Statement>>, s: Statement)
    requires lists != []
    ensures var m := |lists| - 1; RecordedAll(lists[..m] + [lists[m] + [s]]) == RecordedAll(lists) + Length(s)
  {
    hide Recorded, RecordedAll, Length;
    var m := |lists| - 1;
    assert lists == lists[..m] + [lists[m]];
    RecordedAllSnoc(lists[..m], lists[m]);
    RecordedSnoc(lists[m], s);
    RecordedAllSnoc(lists[..m], lists[m] + [s]);
  }

  lemma ReducedConserves(lists: seq<seq<Statement>>, length: nat, trigger: bool)
    requires lists != [] && (trigger ==> |lists| >= 2)
    ensures RecordedAll(Reduced(lists, length, trigger)) == RecordedAll(lists) + length
  {
    hide RecordedAll;
    var n := |lists| - 1;
    if trigger {
      assert RecordedAll(lists) == RecordedAll(lists[..n]) + Recorded(lists[n]) by {
        RecordedAllSnoc(lists[..n], lists[n]);
        assert lists == lists[..n] + [lists[n]];
      }
      assert lists[..n][..n - 1] == lists[..n - 1];
      AppendConserves(lists[..n], Trigger(length, lists[n]));
    } else {
      AppendConserves(lists, Plain(length));
    }
  }

  /** The actions of `statement_list`: the statement takes the running length, which starts again, and
      goes behind all others of the innermost list; a trigger takes the list that was begun for it. */
  method ReduceStatement(loc: Location, lists: seq<seq<Statement>>, trigger: bool) returns (lists': seq<seq<Statement>>)
    requires lists != [] && (trigger ==> |lists| >= 2) && loc.stringLength >= 0
    modifies loc`stringLength
    ensures loc.stringLength == 0
    ensures !trigger ==>
              var m := |lists| - 1;
              lists' == lists[..m] + [lists[m] + [Plain(old(loc.stringLength))]]
    ensures trigger ==>
              var m := |lists| - 2;
              lists' == lists[..m] + [lists[m] + [Trigger(old(loc.stringLength), lists[m + 1])]]
  {
    var n := |lists| - 1;
    var s, outer := Plain(loc.stringLength), lists;
    if trigger {
      s, outer := Trigger(loc.stringLength, lists[n]), lists[..n];
    }
    loc.stringLength := 0;
    lists' := outer[|outer| - 1 := outer[|outer| - 1] + [s]];
  }

  /** The text and start condition that are left, the running length, and the open lists. */
  datatype Progress = Progress(rest: string, start: Start, running: nat, lists: seq<seq<Statement>>)

  /** What one event does. A trigger without a list of its own cannot be reduced. */
  ghost function Progressed(table: seq<Rule>, p: Progress, e: Event): (p': Progress)
    requires Total(table) && p.lists != []
    ensures p'.lists != []
  {
    match e
    case Scan =>
      var (rest, start) := AfterToken(table, p.start, p.rest);
      AfterTokenIsShorter(table, p.start, p.rest);
      Progress(rest, start, p.running + |p.rest| - |rest|, p.lists)
    case Begin => p.(lists := p.lists + [[]])
    case Reduce(trigger) =>
      if trigger && |p.lists| < 2 then p else p.(running := 0, lists := Reduced(p.lists, p.running, trigger))
  }

  ghost function Play(table: seq<Rule>, sql: string, events: seq<Event>): (p: Progress)
    requires Total(table)
    ensures p.lists != []
  {
    if events == [] then Progress(sql, INITIAL, 0, [[]])
    else Progressed(table, Play(table, sql, events[..|events| - 1]), events[|events| - 1])
  }

  /** Length conservation: under any interleaving of scans and reductions, lists nested in triggers
      included, every character that was scanned is in exactly one recorded length or still running. */
  lemma {:induction false} PlayConserves(table: seq<Rule>, sql: string, events: seq<Event>)
    requires Total(table)
    ensures var p := Play(table, sql, events);
            RecordedAll(p.lists) + p.running + |p.rest| == |sql|
  {
    if events == [] {
      assert RecordedAll([]) == Recorded([]) == 0;
      RecordedAllSnoc([], []);
      assert [] + [[]] == Play(table, sql, events).lists;
    } else {
      var p := Play(table, sql, events[..|events| - 1]);
      PlayConserves(table, sql, events[..|events| - 1]);
      match events[|events| - 1]
      case Scan =>
      case Begin => RecordedAllSnoc(p.lists, []);
      case Reduce(trigger) =>
        if !(trigger && |p.lists| < 2) {
          ReducedConserves(p.lists, p.running, trigger);
        }
    }
  }

  // ----- the recorded statements and the events, one by one -----

  /** The number of scans among some events. */
  function Scans(events: seq<Event>): nat {
    if events == [] then 0 else Scans(events[..|events| - 1]) + if events[|events| - 1] == Scan then 1 else 0
  }

  /** What `m` calls of the scanner leave of the text. */
  ghost function TextAfter(table: seq<Rule>, sql: string, m: nat): (r: (string, Start))
    requires Total(table)
    ensures |r.0| <= |sql|
  {
    if m == 0 then (sql, INITIAL)
    else
      var (rest, start) := TextAfter(table, sql, m - 1);
      AfterTokenIsShorter(table, start, rest);
      AfterToken(table, start, rest)
  }

  /** The total column after some events: how much of the text they have scanned. */
  ghost function TotalColumn(table: seq<Rule>, sql: string, events: seq<Event>): nat
    requires Total(table)
  {
    |sql| - |TextAfter(table, sql, Scans(events)).0|
  }

  /** The statement list of a trigger begins, or a statement is complete. */
  datatype Note = Opened | Closed(trigger: bool, stringLength: nat)

  /** The notes of a run: one for each `Begin` and each reduction, in their order. `open` counts the
      triggers that have begun, and `from` is the total column at the last reduction. */
  datatype Trace = Trace(notes: seq<Note>, open: nat, from: nat)

  ghost function TraceOf(table: seq<Rule>, sql: string, events: seq<Event>): Trace
    requires Total(table)
  {
    if events == [] then Trace([], 0, 0)
    else
      var before := events[..|events| - 1];
      var t := TraceOf(table, sql, before);
      match events[|events| - 1]
      case Scan => t
      case Begin => t.(notes := t.notes + [Opened], open := t.open + 1)
      case Reduce(trigger) =>
        if trigger && t.open == 0 then t
        else
          var here := TotalColumn(table, sql, before);
          Trace(t.notes + [Closed(trigger, if here >= t.from then here - t.from else 0)],
            if trigger then t.open - 1 else t.open, here)
  }

  /** A list written out: each statement behind those before it, and a trigger behind its own list. */
  function Written(list: seq<Statement>): seq<Note>
    decreases list
  {
    if list == [] then [] else Written(list[..|list| - 1]) + WrittenStatement(list[|list| - 1])
  }

  function WrittenStatement(s: Statement): seq<Note> {
    match s
    case Plain(n) => [Closed(false, n)]
    case Trigger(n, body) => [Opened] + Written(body) + [Closed(true, n)]
  }

  function WrittenAll(lists: seq<seq<Statement>>): seq<Note>
    requires lists != []
    decreases |lists|
  {
    var n := |lists| - 1;
    if n == 0 then Written(lists[0]) else WrittenAll(lists[..n]) + [Opened] + Written(lists[n])
  }

  lemma WrittenSnoc(list: seq<Statement>, s: Statement)
    ensures Written(list + [s]) == Written(list) + WrittenStatement(s)
  {
    assert (list + [s])[..|list|] == list;
  }

  lemma WrittenAllSnoc(lists: seq<seq<Statement>>, list: seq<Statement>)
    requires lists != []
    ensures WrittenAll(lists + [list]) == WrittenAll(lists) + [Opened] + Written(list)
  {
    assert (lists + [list])[..|lists|] == lists;
  }

  lemma Regroup(a: seq<Note>, b: seq<Note>, c: seq<Note>, d: seq<Note>)
    ensures a + b + (c + d) == a + b + c + d && a + (b + c + d) == a + b + c + d
  {}

  /** One more statement at the end of the innermost list. */
  lemma AppendIsWritten(lists: seq<seq<Statement>>, s: Statement)
    requires lists != []
    ensures var m := |lists| - 1; WrittenAll(lists[..m] + [lists[m] + [s]]) == WrittenAll(lists) + WrittenStatement(s)
  {
    hide *;
    var m := |lists| - 1;
    if m > 0 {
      AppendBehind(lists[..m], lists[m], s);
      assert lists == lists[..m] + [lists[m]];
    } else {
      AppendFirst(lists[0], s);
      assert lists == [lists[0]] && lists[..0] + [lists[0] + [s]] == [lists[0] + [s]];
    }
  }

  lemma AppendBehind(lists: seq<seq<Statement>>, list: seq<Statement>, s: Statement)
    requires lists != []
    ensures WrittenAll(lists + [list + [s]]) == WrittenAll(lists + [list]) + WrittenStatement(s)
  {
    hide *;
    WrittenSnoc(list, s);
    LastIsWritten(lists, list, list + [s], WrittenStatement(s));
  }

  lemma AppendFirst(list: seq<Statement>, s: Statement)
    ensures WrittenAll([list + [s]]) == WrittenAll([list]) + WrittenStatement(s)
  {
    hide *;
    WrittenSnoc(list, s);
    OneList([list]);
    OneList([list + [s]]);
  }

  lemma LastIsWritten(lists: seq<seq<Statement>>, list: seq<Statement>, list': seq<Statement>, more: seq<Note>)
    requires lists != [] && Written(list') == Written(list) + more
    ensures WrittenAll(lists + [list']) == WrittenAll(lists + [list]) + more
  {
    hide Written, WrittenAll;
    WrittenAllSnoc(lists, list);
    WrittenAllSnoc(lists, list');
    Regroup(WrittenAll(lists), [Opened], Written(list), more);
  }

  lemma OneList(lists: seq<seq<Statement>>)
    requires |lists| == 1
    ensures WrittenAll(lists) == Written(lists[0])
  {}

  lemma ReducedIsWritten(lists: seq<seq<Statement>>, length: nat, trigger: bool)
    requires lists != [] && (trigger ==> |lists| >= 2)
    ensures WrittenAll(Reduced(lists, length, trigger)) == WrittenAll(lists) + [Closed(trigger, length)]
  {
    hide Written, WrittenAll;
    var n := |lists| - 1;
    if trigger {
      assert lists == lists[..n] + [lists[n]];
      WrittenAllSnoc(lists[..n], lists[n]);
      assert lists[..n][..n - 1] == lists[..n - 1];
      AppendIsWritten(lists[..n], Trigger(length, lists[n]));
      Regroup(WrittenAll(lists[..n]), [Opened], Written(lists[n]), [Closed(true, length)]);
    } else {
      AppendIsWritten(lists, Plain(length));
    }
  }

  /** The lists, written out, are the notes of the run: statements stand in the order of their
      reductions, triggers hold exactly what was reduced since they began, and each length is the
      total column at its reduction minus that at the reduction before. */
  lemma {:induction false} PlayIsWritten(table: seq<Rule>, sql: string, events: seq<Event>)
    requires Total(table)
    ensures var p, t := Play(table, sql, events), TraceOf(table, sql, events);
            && WrittenAll(p.lists) == t.notes && |p.lists| == t.open + 1
            && (p.rest, p.start) == TextAfter(table, sql, Scans(events))
            && t.from + p.running == TotalColumn(table, sql, events)
  {
    hide Written, WrittenAll, AfterToken, Reduced;
    if events == [] {
      assert WrittenAll([[]]) == [] by { EmptyIsWritten(); }
    } else {
      var before := events[..|events| - 1];
      var p := Play(table, sql, before);
      PlayIsWritten(table, sql, before);
      match events[|events| - 1]
      case Scan =>
        AfterTokenIsShorter(table, p.start, p.rest);
      case Begin =>
        WrittenAllSnoc(p.lists, []);
        EmptyIsWritten();
      case Reduce(trigger) =>
        if !(trigger && |p.lists| < 2) {
          ReducedIsWritten(p.lists, p.running, trigger);
          ReducedDepth(p.lists, p.running, trigger);
        }
    }
  }

  lemma EmptyIsWritten()
    ensures Written([]) == [] && WrittenAll([[]]) == []
  {}

  lemma ReducedDepth(lists: seq<seq<Statement>>, length: nat, trigger: bool)
    requires lists != [] && (trigger ==> |lists| >= 2)
    ensures |Reduced(lists, length, trigger)| == if trigger then |lists| - 1 else |lists|
  {}

  // ----- one level -----

  /** No trigger begins or ends. */
  predicate OneLevel(events: seq<Event>) {
    forall e | e in events :: e == Scan || e == Reduce(false)
  }

  function Reductions(events: seq<Event>): nat {
    if events == [] then 0 else Reductions(events[..|events| - 1]) + if events[|events| - 1].Reduce? then 1 else 0
  }

  /** The total column at the last reduction. */
  ghost function LastColumn(table: seq<Rule>, sql: string, events: seq<Event>): nat
    requires Total(table)
  {
    if events == [] then 0
    else
      var before := events[..|events| - 1];
      if events[|events| - 1].Reduce? then TotalColumn(table, sql, before) else LastColumn(table, sql, before)
  }

  /** The statement that event `j` reduces is the next one of the list, and its length is the total
      column there minus that at the reduction before. */
  ghost predicate ReducedAt(table: seq<Rule>, sql: string, events: seq<Event>, j: nat, list: seq<Statement>)
    requires Total(table) && j < |events|
  {
    var before := events[..j];
    var k := Reductions(before);
    && k < |list| && list[k].Plain?
    && LastColumn(table, sql, before) + list[k].stringLength == TotalColumn(table, sql, before)
  }

  lemma {:induction false} ListIsInOrder(table: seq<Rule>, sql: string, events: seq<Event>)
    requires Total(table) && OneLevel(events)
    ensures var lists := Play(table, sql, events).lists;
            && |lists| == 1 && |lists[0]| == Reductions(events)
            && forall j | 0 <= j < |events| && events[j].Reduce? :: ReducedAt(table, sql, events, j, lists[0])
    ensures TraceOf(table, sql, events).from == LastColumn(table, sql, events)
  {
    hide AfterToken, TotalColumn;
    if events != [] {
      var n := |events| - 1;
      var before := events[..n];
      assert forall e | e in before :: e in events;
      var list := Play(table, sql, before).lists[0];
      ListIsInOrder(table, sql, before);
      PlayIsWritten(table, sql, before);
      var list' := Play(table, sql, events).lists[0];
      assert events[n] in events;
      forall j | 0 <= j < n && events[j].Reduce? ensures ReducedAt(table, sql, events, j, list') {
        assert before[..j] == events[..j] && before[j] == events[j];
        assert ReducedAt(table, sql, before, j, list);
      }
    }
  }

  /** The token `t` is the best match in the span from `from` to `to`, by rule `i`. */
  ghost predicate Lexeme(table: seq<Rule>, start: Start, sql: string, from: nat, to: nat, i: nat, t: Token) {
    from < to <= |sql| && IsBest(table, start, sql[from..], to - from, i) && Act(table[i], sql[from..to]) == Emit(t)
  }

  method ScanToken(scanner: Lexer, loc: Location) returns (t: Option<Token>, ghost from: nat, ghost i: nat)
    requires scanner.Valid() && loc.At(scanner.text[..scanner.pos])
    modifies scanner, loc
    ensures scanner.Valid() && loc.At(scanner.text[..scanner.pos]) && scanner.pos >= old(scanner.pos)
    ensures loc.stringLength == old(loc.stringLength) + scanner.pos - old(scanner.pos)
    ensures old(scanner.Pending()) == if t.Some? then Cons(t.value, scanner.Pending()) else Nil
    ensures (scanner.text[scanner.pos..], scanner.start) == old(scanner.Rest())
    ensures t.Some? ==>
              && Lexeme(scanner.table, scanner.start, scanner.text, from, scanner.pos, i, t.value)
              && loc.firstLine == Newlines(scanner.text[..from]) && loc.firstColumn == Column(scanner.text[..from])
  {
    hide Newlines, Column, Act, Lex, AfterToken;
    t, from, i := scanner.Next(loc);
  }

  /** The parser's side of the record, for any sequence of events: it is where the events put it, the
      recorded statements are those of the reductions in their order, and the total column is the sum
      of all recorded lengths and the running one. */
  method Process(order: seq<string>, sql: string, events: seq<Event>)
    returns (scanner: Lexer, loc: Location, lists: seq<seq<Statement>>)
    ensures scanner.Valid() && scanner.text == sql && loc.At(sql[..scanner.pos]) && loc.stringLength >= 0
    ensures Progress(sql[scanner.pos..], scanner.start, loc.stringLength,
        lists) == (TableIsTotal(order); Play(Table(order), sql, events))
    ensures loc.totalColumn == RecordedAll(lists) + loc.stringLength
    ensures loc.totalColumn == (TableIsTotal(order); TotalColumn(Table(order), sql, events))
    ensures lists != [] && WrittenAll(lists) == (TableIsTotal(order); TraceOf(Table(order), sql, events).notes)
    ensures OneLevel(events) ==>
              && |lists| == 1 && |lists[0]| == Reductions(events)
              && forall j | 0 <= j < |events| && events[j].Reduce? ::
                   (TableIsTotal(order); ReducedAt(Table(order), sql, events, j, lists[0]))
  {
    hide Newlines, Column, AfterToken, RecordedAll, WrittenAll, TraceOf, ReducedAt;
    TableIsTotal(order);
    scanner := new Lexer(order, sql);
    loc := new Location();
    lists := [[]];
    assert sql[..0] == "" && sql[0..] == sql && events[..0] == [];
    for i := 0 to |events|
      invariant fresh(scanner) && fresh(loc) && scanner.table == Table(order)
      invariant scanner.Valid() && scanner.text == sql && loc.At(sql[..scanner.pos]) && loc.stringLength >= 0
      invariant Progress(sql[scanner.pos..], scanner.start, loc.stringLength, lists)
                == Play(Table(order), sql, events[..i])
    {
      assert events[..i + 1][..i] == events[..i];
      match events[i]
      case Scan =>
        ghost var from, j;
        var t;
        t, from, j := ScanToken(scanner, loc);
      case Begin =>
        lists := lists + [[]];
      case Reduce(trigger) =>
        if trigger ==> |lists| >= 2 {
          lists := ReduceStatement(loc, lists, trigger);
        }
    }
    assert events[..|events|] == events;
    PlayConserves(Table(order), sql, events);
    PlayIsWritten(Table(order), sql, events);
    if OneLevel(events) {
      ListIsInOrder(Table(order), sql, events);
    }
  }

  /** The error handler: a copy of the message text goes to the result. The message that was there
      before is left without an owner. */
  method ReportError(loc: Location, result: SQLParserResult, text: string, live: Store, ghost rest: Store)
    returns (after: Store, ghost lost: Store)
    requires live == result.Owns() + rest
    modifies result
    ensures !result.isValid_ && result.errorMsg_ != null && fresh(result.errorMsg_) && result.errorMsg_.text == text
    ensures result.errorLine_ == loc.firstLine && result.errorColumn_ == loc.firstColumn
    ensures result.statements_ == old(result.statements_) && result.parameters_ == old(result.parameters_)
    ensures after == result.Owns() + lost + rest && lost == Memory.One(old(result.errorMsg_))
  {
    result.isValid_ := false;
    var message := new CString(text);
    after := live + multiset{message};
    lost := result.SetErrorDetails(message, loc.firstLine, loc.firstColumn, after, rest);
  }

  /** Two failing parses into one result: the first message is lost, unless the result was reset in
      between. */
  method ReportTwice(loc: Location, result: SQLParserResult, first: string, second: string, resets: bool,
                     live: Store, ghost rest: Store)
    returns (after: Store, ghost lost: Store, ghost message: CString)
    requires live == result.Owns() + rest && result.errorMsg_ == null
    modifies result
    ensures fresh(message) && message.text == first && lost == if resets then multiset{} else Memory.One(message)
    ensures after == result.Owns() + lost + rest && result.errorMsg_ != null && result.errorMsg_.text == second
    ensures result.errorMsg_ != message
  {
    after, lost := ReportError(loc, result, first, live, rest);
    message := result.errorMsg_;
    if resets {
      after := result.Reset(after, rest);
    }
    after, lost := ReportError(loc, result, second, after, rest);
  }

  function Nth(ts: List<Token>, n: nat): Option<Token> {
    match ts
    case Nil => None
    case Cons(t, rest) => if n == 0 then Some(t) else Nth(rest, n - 1)
  }

  /** A text that is no expression goes wrong at token `n`: no accepted list begins with the tokens up to
      and including it, but one begins with those before it. The result says the line and the column
      where that token starts. */
  method FailAt(order: seq<string>, sql: string, n: nat, message: string, live: Store)
    returns (scanner: Lexer, result: SQLParserResult, token: Option<Token>, after: Store,
             ghost from: nat, ghost i: nat)
    requires var all := (TableIsTotal(order); Lex(Table(order), INITIAL, sql));
             Machine.Parse(all).None? && n == Prefixes.ErrorAt(all)
    ensures var all := (TableIsTotal(order); Lex(Table(order), INITIAL, sql));
            && n <= all.Size() && (exists z :: Machine.Parse(Prefixes.Graft(all, n, z)).Some?)
            && forall us | Prefixes.Agree(all, us, n + 1) :: Machine.Parse(us).None?
    ensures after == result.Owns() + live
    ensures scanner.Valid() && scanner.table == Table(order) && scanner.text == sql
    ensures token == Nth((TableIsTotal(order); Lex(Table(order), INITIAL, sql)), n)
    ensures token.Some? ==>
              && Lexeme(scanner.table, scanner.start, sql, from, scanner.pos, i, token.value)
              && result.errorLine_ == Newlines(sql[..from]) && result.errorColumn_ == Column(sql[..from])
  {
    hide Newlines, Column, Act, Lex, IsBest, Machine.Parse, Prefixes.ErrorAt, Prefixes.Agree, Prefixes.Graft;
    TableIsTotal(order);
    Prefixes.ErrorIsFirst(Lex(Table(order), INITIAL, sql));
    scanner := new Lexer(order, sql);
    var loc := new Location();
    result := new SQLParserResult();
    ghost var lost;
    assert sql[0..] == sql && sql[..0] == "";
    ghost var all := scanner.Pending();
    token, from, i := ScanToken(scanner, loc);
    var k := 0;
    while k < n && token.Some?
      invariant scanner.Valid() && fresh(scanner) && fresh(loc) && fresh(result) && loc.At(sql[..scanner.pos])
      invariant scanner.table == Table(order) && scanner.text == sql && k <= n
      invariant Nth(all, n) == if token.None? then None else Nth(Cons(token.value, scanner.Pending()), n - k)
      invariant result.statements_ == [] && result.errorMsg_ == null
      invariant token.Some? ==>
                  && Lexeme(scanner.table, scanner.start, sql, from, scanner.pos, i, token.value)
                  && loc.firstLine == Newlines(sql[..from]) && loc.firstColumn == Column(sql[..from])
    {
      token, from, i := ScanToken(scanner, loc);
      k := k + 1;
    }
    after, lost := ReportError(loc, result, message, live, live);
  }
}
