/**
 What the scanner has to return: at every point the longest match, and among the longest ones the
 earliest rule (POSIX.1-2017, XCU, lex utility). The token list of a text follows from that alone.
 */
module Lexing {
  import opened Tokens
  import opened Regex
  import opened Rules

  /** Rule `i` matches the first `n > 0` characters of `s`. */
  ghost predicate Fits(table: seq<Rule>, start: Start, s: string, n: nat, i: nat) {
    i < |table| && 0 < n <= |s| && Active(table[i], start) && Matches(Pattern(table[i]), s[..n])
  }

  /** No other match is longer, and no earlier rule matches as much. */
  ghost predicate IsBest(table: seq<Rule>, start: Start, s: string, n: nat, i: nat) {
    && Fits(table, start, s, n, i)
    && forall m: nat, j: nat :: Fits(table, start, s, m, j) ==> m < n || (m == n && i <= j)
  }

  lemma BestIsUnique(table: seq<Rule>, start: Start, s: string, n: nat, i: nat, m: nat, j: nat)
    requires IsBest(table, start, s, n, i) && IsBest(table, start, s, m, j)
    ensures n == m && i == j
  {
    assert Fits(table, start, s, n, i) && Fits(table, start, s, m, j);
  }

  lemma {:induction false} BestExists(table: seq<Rule>, start: Start, s: string, m: nat, j: nat)
    returns (n: nat, i: nat)
    requires Fits(table, start, s, m, j)
    ensures IsBest(table, start, s, n, i)
    decreases |s| - m, j
  {
    if IsBest(table, start, s, m, j) {
      n, i := m, j;
    } else {
      var m': nat, j': nat :| Fits(table, start, s, m', j') && !(m' < m || (m' == m && j <= j'));
      n, i := BestExists(table, start, s, m', j');
    }
  }

  /** A table in which some rule matches at every character. */
  ghost predicate Total(table: seq<Rule>) {
    Blanks in table && AnyChar in table
  }

  lemma TableIsTotal(order: seq<string>)
    ensures Total(Table(order))
  {
    var t := Table(order);
    assert t[3] == Blanks;
    assert t[4 + |order| + 12] == AnyChar;
  }

  lemma SomethingFits(table: seq<Rule>, start: Start, s: string) returns (i: nat)
    requires Total(table) && s != []
    ensures Fits(table, start, s, 1, i)
  {
    var c := s[..1];
    if s[0] == '\n' {
      i :| i < |table| && table[i] == Blanks;
      CatCharClosed(Among(" \t\n"), Star(Char(Among(" \t\n"))), c);
    } else {
      i :| i < |table| && table[i] == AnyChar;
      CharClosed(Except("\n"), c);
    }
  }

  /** The best match of a non-empty text. */
  ghost function Best(table: seq<Rule>, start: Start, s: string): (r: (nat, nat))
    requires Total(table) && s != []
    ensures IsBest(table, start, s, r.0, r.1)
  {
    assert exists n: nat, i: nat :: IsBest(table, start, s, n, i) by {
      var j := SomethingFits(table, start, s);
      var n, i := BestExists(table, start, s, 1, j);
    }
    var n: nat, i: nat :| IsBest(table, start, s, n, i);
    (n, i)
  }

  /** The tokens the parser receives from `s`; the catch-all rule returns the end-of-file token. */
  ghost function Lex(table: seq<Rule>, start: Start, s: string): List<Token>
    requires Total(table)
    decreases |s|
  {
    if s == [] then Nil else
    var (n, i) := Best(table, start, s);
    match Act(table[i], s[..n])
    case Emit(t) => Cons(t, Lex(table, start, s[n..]))
    case Skip => Lex(table, start, s[n..])
    case Begin(start') => Lex(table, start', s[n..])
    case Stop => Nil
  }

  /** One move of the scanner, for a match known to be best. */
  lemma LexMoves(table: seq<Rule>, start: Start, s: string, n: nat, i: nat)
    requires Total(table) && IsBest(table, start, s, n, i)
    ensures Lex(table, start, s)
         == (match Act(table[i], s[..n])
             case Emit(t) => Cons(t, Lex(table, start, s[n..]))
             case Skip => Lex(table, start, s[n..])
             case Begin(start') => Lex(table, start', s[n..])
             case Stop => Nil)
  {
    var b := Best(table, start, s);
    BestIsUnique(table, start, s, n, i, b.0, b.1);
  }

  /** What one call of the scanner leaves: the rest of the text and the start condition. */
  ghost function AfterToken(table: seq<Rule>, start: Start, s: string): (string, Start)
    requires Total(table)
    decreases |s|
  {
    if s == [] then (s, start) else
    var (n, i) := Best(table, start, s);
    match Act(table[i], s[..n])
    case Emit(_) => (s[n..], start)
    case Skip => AfterToken(table, start, s[n..])
    case Begin(start') => AfterToken(table, start', s[n..])
    case Stop => (s[n..], start)
  }

  lemma AfterTokenMoves(table: seq<Rule>, start: Start, s: string, n: nat, i: nat)
    requires Total(table) && IsBest(table, start, s, n, i)
    ensures AfterToken(table, start, s)
         == (match Act(table[i], s[..n])
             case Emit(_) => (s[n..], start)
             case Skip => AfterToken(table, start, s[n..])
             case Begin(start') => AfterToken(table, start', s[n..])
             case Stop => (s[n..], start))
  {
    var b := Best(table, start, s);
    BestIsUnique(table, start, s, n, i, b.0, b.1);
  }

  lemma {:induction false} AfterTokenIsShorter(table: seq<Rule>, start: Start, s: string)
    requires Total(table)
    ensures |AfterToken(table, start, s).0| <= |s|
    decreases |s|
  {
    if s != [] {
      var (n, i) := Best(table, start, s);
      match Act(table[i], s[..n])
      case Emit(_) =>
      case Skip => AfterTokenIsShorter(table, start, s[n..]);
      case Begin(start') => AfterTokenIsShorter(table, start', s[n..]);
      case Stop =>
    }
  }

  /** The lexemes that Lex goes through, in order. */
  ghost function Pieces(table: seq<Rule>, start: Start, s: string): seq<string>
    requires Total(table)
    decreases |s|
  {
    if s == [] then [] else
    var (n, i) := Best(table, start, s);
    match Act(table[i], s[..n])
    case Stop => []
    case Begin(start') => [s[..n]] + Pieces(table, start', s[n..])
    case _ => [s[..n]] + Pieces(table, start, s[n..])
  }

  ghost function Flatten(pieces: seq<string>): string {
    if pieces == [] then [] else pieces[0] + Flatten(pieces[1..])
  }

  lemma FlattenCons(p: string, ps: seq<string>)
    ensures Flatten([p] + ps) == p + Flatten(ps)
  {
    assert ([p] + ps)[1..] == ps;
  }

  lemma PiecesMove(table: seq<Rule>, start: Start, s: string) returns (stops: bool, n: nat, start': Start)
    requires Total(table) && s != []
    ensures stops ==> Pieces(table, start, s) == [] && table[Best(table, start, s).1] == AnyChar
    ensures !stops ==> 0 < n <= |s| && Pieces(table, start, s) == [s[..n]] + Pieces(table, start', s[n..])
  {
    var b := Best(table, start, s);
    var action := Act(table[b.1], s[..b.0]);
    stops, n, start' := action.Stop?, b.0, if action.Begin? then action.start else start;
  }

  /** The lexemes cover a prefix of the text without gap or overlap, and stop only at its end or in
      front of a character that the catch-all rule takes. */
  lemma {:induction false} PiecesCover(table: seq<Rule>, start: Start, s: string) returns (rest: string, last: Start)
    requires Total(table)
    ensures s == Flatten(Pieces(table, start, s)) + rest
    ensures rest != [] ==> table[Best(table, last, rest).1] == AnyChar
    decreases |s|
  {
    rest, last := s, start;
    if s != [] {
      var stops, n, start' := PiecesMove(table, start, s);
      if !stops {
        var tail := s[n..];
        rest, last := PiecesCover(table, start', tail);
        Prepend(s, n, Pieces(table, start', tail), rest);
      }
    }
  }

  lemma Prepend(s: string, n: nat, ps: seq<string>, rest: string)
    requires n <= |s| && s[n..] == Flatten(ps) + rest
    ensures s == Flatten([s[..n]] + ps) + rest
  {
    FlattenCons(s[..n], ps);
    assert s == s[..n] + s[n..];
  }

  lemma {:induction false} PiecesAreNotEmpty(table: seq<Rule>, start: Start, s: string)
    requires Total(table)
    ensures forall p | p in Pieces(table, start, s) :: p != []
    decreases |s|
  {
    if s != [] {
      var stops, n, start' := PiecesMove(table, start, s);
      if !stops {
        PiecesAreNotEmpty(table, start', s[n..]);
      }
    }
  }
}
