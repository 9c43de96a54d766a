/**
 `SQLParser::tokenize` on the heap: the scanner allocates the string of every identifier and string
 token, and the loop frees the string of each token but the first.
 */
module Tokenizing {
  import opened Tokens
  import opened Locations
  import opened Rules
  import opened Lexing
  import opened Lexemes
  import opened Scanner
  import opened Memory

  predicate CarriesString(t: Token) {
    t.Ident? || t.Str?
  }

  function StringOf(t: Token): string
    requires CarriesString(t)
  {
    if t.Ident? then t.name else t.body
  }

  /** One call of the scanner: it sets the semantic value of a token that carries a string. The token
      has a lexeme that ends where the scanner stands. */
  method NextToken(ghost order: seq<string>, scanner: Lexer, loc: Location, live: Store)
    returns (t: Option<Token>, sval: CString?, after: Store, ghost from: nat)
    requires scanner.Valid() && loc.At(scanner.text[..scanner.pos]) && scanner.table == Table(order)
    modifies scanner, loc
    ensures scanner.Valid() && loc.At(scanner.text[..scanner.pos]) && scanner.pos >= old(scanner.pos)
    ensures t.Some? ==>
              old(scanner.pos) <= from < scanner.pos && IsLexeme(order, scanner.text[from..scanner.pos], t.value)
    ensures old(scanner.Pending()) == if t.Some? then Cons(t.value, scanner.Pending()) else Nil
    ensures sval != null <==> t.Some? && CarriesString(t.value)
    ensures sval != null ==> fresh(sval) && sval.text == StringOf(t.value)
    ensures after == live + One(sval)
  {
    hide Newlines, Column, Act, Lex, IsBest, IsLexeme;
    ghost var i;
    t, from, i := scanner.Next(loc);
    sval, after := null, live;
    if t.Some? && CarriesString(t.value) {
      sval := new CString(StringOf(t.value));
      after := live + multiset{sval};
    }
  }

  /** The spans lie one behind the other in the text, and each holds a lexeme of its token. */
  ghost predicate Covers(order: seq<string>, sql: string, spans: seq<(nat, nat)>, tokens: seq<Token>) {
    && |spans| == |tokens|
    && (forall k | 0 <= k < |spans| ::
          spans[k].0 < spans[k].1 <= |sql| && IsLexeme(order, sql[spans[k].0..spans[k].1], tokens[k]))
    && forall k | 0 < k < |spans| :: spans[k - 1].1 <= spans[k].0
  }

  /** The token list of a text. The loop frees the value it has just scanned, so the string of the first
      token is never freed: nothing is left allocated if and only if the first token carries no string. */
  method Tokenize(order: seq<string>, sql: string, live: Store)
    returns (tokens: seq<Token>, after: Store, ghost lost: CString?, ghost spans: seq<(nat, nat)>)
    ensures FromSeq(tokens) == (TableIsTotal(order); Lex(Table(order), INITIAL, sql))
    ensures Covers(order, sql, spans, tokens)
    ensures after == live + One(lost)
    ensures lost != null <==> tokens != [] && CarriesString(tokens[0])
  {
    hide Newlines, Column, Act, Lex, One, IsLexeme;
    TableIsTotal(order);
    var scanner := new Lexer(order, sql);
    var loc := new Location();
    tokens, spans := [], [];
    assert sql[0..] == sql && sql[..0] == "";
    var token, sval;
    ghost var from: nat;
    token, sval, after, from := NextToken(order, scanner, loc, live);
    lost := sval;
    while token.Some?
      invariant scanner.Valid() && fresh(scanner) && fresh(loc) && loc.At(scanner.text[..scanner.pos])
      invariant scanner.table == Table(order) && scanner.text == sql
      invariant Covers(order, sql, spans, tokens)
      invariant token.Some? ==>
                  from < scanner.pos && IsLexeme(order, sql[from..scanner.pos], token.value)
                  && (spans == [] || spans[|spans| - 1].1 <= from)
      invariant Joined(tokens, if token.Some? then Cons(token.value,
          scanner.Pending()) else Nil) == Lex(Table(order), INITIAL, sql)
      invariant lost != null <==> if tokens == [] then token.Some?
          && CarriesString(token.value) else CarriesString(tokens[0])
      invariant after == live + One(lost)
      decreases if token.Some? then scanner.Pending().Size() + 1 else 0
    {
      JoinedSnoc(tokens, token.value, scanner.Pending());
      tokens, spans := tokens + [token.value], spans + [(from, scanner.pos)];
      ghost var before := after;
      token, sval, after, from := NextToken(order, scanner, loc, after);
      if token.Some? && CarriesString(token.value) {
        Behind(before, One(sval));
        after := Release(after, sval, before);
      } else {
        NothingMore(before, sval);
      }
    }
    JoinedNil(tokens);
  }

  lemma Behind(a: Store, b: Store)
    ensures a + b == b + a
  {}

  lemma NothingMore(a: Store, o: object?)
    ensures o == null ==> a + One(o) == a
  {}
}
