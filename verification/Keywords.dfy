/**
 Keywords: facts about the list in the rule file, the reading of a whole word, and the irrelevance
 of the order of the keyword rules.
 */
module Keywords {
  import opened Tokens
  import opened Regex
  import opened Rules
  import opened Lexing
  import opened Languages
  import opened Spelled

  /** The keywords that the expression grammar mentions have rules in `order`. */
  ghost predicate Complete(order: seq<string>) {
    forall k: Keyword | !k.Reserved? :: Spelling(k) in order
  }

  lemma SourceWordsAreComplete()
    ensures Complete(KEYWORDS)
  {
    Part1Has();
    Part2Has();
    Part3Has();
    Part4Has();
    Part5Has();
    forall k: Keyword | !k.Reserved? ensures Spelling(k) in KEYWORDS {
      var w := Spelling(k);
      assert w in WORDS_1 || w in WORDS_2 || w in WORDS_3 || w in WORDS_4 || w in WORDS_5;
    }
  }

  lemma Part1Has()
    ensures "RECURSIVE" in WORDS_1 && "DISTINCT" in WORDS_1 && "BETWEEN" in WORDS_1
  {}

  lemma Part2Has()
    ensures "NOTNULL" in WORDS_2 && "REPLACE" in WORDS_2
  {}

  lemma Part3Has()
    ensures "EXISTS" in WORDS_3 && "ISNULL" in WORDS_3
  {}

  lemma Part4Has()
    ensures "CASE" in WORDS_4 && "ELSE" in WORDS_4 && "JOIN" in WORDS_4 && "LIKE" in WORDS_4 && "NULL" in WORDS_4
  {}

  lemma Part5Has()
    ensures "TEMP" in WORDS_5 && "TEXT" in WORDS_5 && "THEN" in WORDS_5 && "WHEN" in WORDS_5 && "AND" in WORDS_5
              && "END" in WORDS_5 && "KEY" in WORDS_5 && "NOT" in WORDS_5 && "AS" in WORDS_5 && "IN" in WORDS_5
              && "IS" in WORDS_5 && "ON" in WORDS_5 && "OR" in WORDS_5
  {}

  lemma NamedKeyword(k: Keyword)
    requires !k.Reserved?
    ensures KeywordOf(Spelling(k)) == k
  {
  }

  // ----- a whole word -----

  function Uppercase(s: string): (u: string)
    ensures |u| == |s|
  {
    seq(|s|, i requires 0 <= i < |s| => Upper(s[i]))
  }

  /** The token of an unquoted word: its keyword, or else an identifier with its own letters. */
  ghost function WordToken(order: seq<string>, w: string): Token {
    if IsKeyword(order, w) then Kw(KeywordOf(Uppercase(w))) else Ident(w)
  }

  lemma WordNoLonger(order: seq<string>, w: string, rest: string, m: nat, j: nat)
    requires IsWord(w) && (rest != [] ==> !WordChar.Has(rest[0]))
    requires Fits(Table(order), INITIAL, w + rest, m, j)
    ensures m <= |w|
  {
    if m > |w| {
      var x := (w + rest)[..m];
      var r := Table(order)[j];
      assert x[0] == w[0] && x[|w|] == rest[0] && x[1..][|w| - 1] == rest[0] && rest[0] in x[1..];
      TableAt(order, j);
      PatternClosed(r, x);
      ShapeBegins(r, x);
    }
  }

  /** In the initial state a maximal word becomes an identifier exactly when it is no keyword. */
  lemma WordIsRead(order: seq<string>, w: string, rest: string)
    requires Total(Table(order)) && IsWord(w) && (rest != [] ==> !WordChar.Has(rest[0]))
    ensures Lex(Table(order), INITIAL, w + rest) == Cons(WordToken(order, w), Lex(Table(order), INITIAL, rest))
  {
    hide Matches, Total, Lex, Table;
    var i: nat;
    if IsKeyword(order, w) {
      i := KeywordTakes(order, w);
      SameIsUppercase(w, order[i - 4]);
    } else {
      WordTakes(order, w);
      i := 4 + |order| + 10;
    }
    TableAt(order, i);
    forall m: nat, j: nat | Fits(Table(order), INITIAL, w + rest, m, j) ensures m <= |w| {
      WordNoLonger(order, w, rest, m, j);
    }
    TakesIsBest(order, w, rest, i);
    assert (w + rest)[..|w|] == w && (w + rest)[|w|..] == rest;
    LexMoves(Table(order), INITIAL, w + rest, |w|, i);
  }

  lemma SameIsUppercase(s: string, w: string)
    requires SameLetters(s, w)
    ensures w == Uppercase(s)
  {}

  // ----- the order of the keyword rules -----

  /** The place of a rule when all keyword rules share one place. */
  function Place(order: seq<string>, i: nat): nat {
    if i < 4 then i else if i < 4 + |order| then 4 else i - |order| + 1
  }

  lemma PlaceIsMonotone(order: seq<string>, i: nat, j: nat)
    requires i <= j
    ensures Place(order, i) <= Place(order, j)
  {}

  /** A match in one table has a match of the same length, place and action in the other. */
  lemma MovesAcross(order: seq<string>, order': seq<string>, start: Start, s: string, n: nat, i: nat) returns (j: nat)
    requires forall w | w in order :: w in order'
    requires Fits(Table(order), start, s, n, i)
    ensures Fits(Table(order'), start, s, n, j) && Place(order', j) == Place(order, i)
    ensures Table(order')[j] == Table(order)[i]
  {
    TableAt(order, i);
    if i < 4 {
      j := i;
    } else if i < 4 + |order| {
      assert order[i - 4] in order';
      var k :| 0 <= k < |order'| && order'[k] == order[i - 4];
      j := k + 4;
    } else {
      j := i - |order| + |order'|;
    }
    TableAt(order', j);
  }

  /** Rules of one place that match the same text are the same rule. */
  lemma SamePlaceSameRule(order: seq<string>, order': seq<string>, start: Start, s: string, n: nat, i: nat, j: nat)
    requires Fits(Table(order), start, s, n, i) && Fits(Table(order'), start, s, n, j)
    requires Place(order, i) == Place(order', j)
    ensures Table(order)[i] == Table(order')[j]
  {
    TableAt(order, i);
    TableAt(order', j);
    PatternClosed(Table(order)[i], s[..n]);
    PatternClosed(Table(order')[j], s[..n]);
    if 4 <= i < 4 + |order| {
      SameIsUppercase(s[..n], order[i - 4]);
      SameIsUppercase(s[..n], order'[j - 4]);
    }
  }

  lemma BestMovesAcross(order: seq<string>, order': seq<string>, start: Start, s: string, n: nat, i: nat)
    returns (j: nat)
    requires forall w :: w in order <==> w in order'
    requires IsBest(Table(order), start, s, n, i)
    ensures IsBest(Table(order'), start, s, n, j) && Table(order')[j] == Table(order)[i]
  {
    var j0 := MovesAcross(order, order', start, s, n, i);
    var n', j' := BestExists(Table(order'), start, s, n, j0);
    var i' := MovesAcross(order', order, start, s, n', j');
    assert n' == n;
    j := j';
    assert Place(order, i) == Place(order', j) by {
      PlaceIsMonotone(order, i, i');
      PlaceIsMonotone(order', j', j0);
    }
    SamePlaceSameRule(order, order', start, s, n, i, j);
  }

  lemma {:induction false} LexMovesAcross(order: seq<string>, order': seq<string>, start: Start, s: string)
    requires forall w :: w in order <==> w in order'
    requires Total(Table(order)) && Total(Table(order'))
    ensures Lex(Table(order), start, s) == Lex(Table(order'), start, s)
    decreases |s|
  {
    if s != [] {
      var (n, i) := Best(Table(order), start, s);
      var j := BestMovesAcross(order, order', start, s, n, i);
      LexMoves(Table(order), start, s, n, i);
      LexMoves(Table(order'), start, s, n, j);
      LexMovesAcross(order, order', start, s[n..]);
      var action := Act(Table(order)[i], s[..n]);
      if action.Begin? {
        LexMovesAcross(order, order', action.start, s[n..]);
      }
    }
  }

  /** Permuting the keyword rules changes no token of any text. */
  lemma KeywordOrderIsIrrelevant(order: seq<string>, order': seq<string>, start: Start, s: string)
    requires multiset(order) == multiset(order')
    ensures Total(Table(order)) && Total(Table(order'))
    ensures Lex(Table(order), start, s) == Lex(Table(order'), start, s)
  {
    TableIsTotal(order);
    TableIsTotal(order');
    forall w ensures w in order <==> w in order' {
      assert w in order <==> w in multiset(order);
      assert w in order' <==> w in multiset(order');
    }
    LexMovesAcross(order, order', start, s);
  }
}
