/**
 When a minus sign between a word and a number is an operator: the number rules take a sign in front
 of a digit, and then two operands stand side by side.
 */
module Subtraction {
  import opened Tokens
  import opened Precedence
  import opened Syntax
  import opened Machine
  import opened Completeness
  import opened Ast
  import opened Rendering
  import opened Regex
  import opened Rules
  import opened Lexing
  import opened Languages
  import opened Spelled
  import opened Keywords
  import opened TextRoundTrip

  /** A number without a sign: `7`, `7.`, `7.5` or `.5`. */
  ghost predicate IsNumeral(y: string) {
    IsUnsigned(y) || IsUnsignedFloat(y) || (|y| >= 2 && y[0] == '.' && AllDigits(y[1..]))
  }

  function NumberToken(y: string): Token {
    if IsUnsigned(Unsign(y)) then Int(y) else Float(y)
  }

  lemma NumeralBegins(y: string)
    requires IsNumeral(y)
    ensures y != [] && (IsDigit(y[0]) || y[0] == '.') && Unsign(y) == y
    ensures y[0] == '.' <==> !IsUnsigned(y) && !IsUnsignedFloat(y)
  {
    if IsUnsigned(y) {
      assert y[0] in y;
    } else if IsUnsignedFloat(y) {
      FloatHead(y);
    }
  }

  lemma NumeralIsWritable(order: seq<string>, y: string)
    requires IsNumeral(y)
    ensures Writable(order, NumberToken(y)) && Text(order, NumberToken(y)) == y
    ensures y[0] != '.' ==> Writable(order, NumberToken("-" + y)) && Text(order, NumberToken("-" + y)) == "-" + y
  {
    NumeralBegins(y);
    assert Unsign("-" + y) == y;
  }

  /** A minus sign in front of anything but a digit or another minus sign is a lexeme of its own. */
  lemma MinusLexeme(order: seq<string>, rest: string)
    requires rest != [] && rest[0] != '-' && !IsDigit(rest[0])
    ensures IsBest(Table(order), INITIAL, ['-'] + rest, 1, 4 + |order| + 5)
  {
    var table, s := Table(order), ['-'] + rest;
    SingleTakes(order, '-');
    hide Takes, IsBest, Total;
    forall m: nat, j: nat | Fits(table, INITIAL, s, m, j) ensures m <= 1 {
      var x := s[..m];
      assert x[0] == '-' && (m > 1 ==> x[1] == rest[0]);
      TableAt(order, j);
      PatternClosed(table[j], x);
      MinusIsShort(table[j], x);
    }
    TakesIsBest(order, ['-'], rest, 4 + |order| + 5);
  }

  lemma MinusIsRead(order: seq<string>, rest: string)
    requires Total(Table(order)) && rest != [] && rest[0] != '-' && !IsDigit(rest[0])
    ensures Lex(Table(order), INITIAL, ['-'] + rest) == Cons(Sym('-'), Lex(Table(order), INITIAL, rest))
  {
    hide IsBest, Total, Lex;
    MinusLexeme(order, rest);
    TableAt(order, 4 + |order| + 5);
    assert (['-'] + rest)[..1] == ['-'] && (['-'] + rest)[1..] == rest;
    LexMoves(Table(order), INITIAL, ['-'] + rest, 1, 4 + |order| + 5);
  }

  lemma MinusIsShort(r: Rule, x: string)
    requires x != [] && x[0] == '-' && (|x| > 1 ==> x[1] != '-' && !IsDigit(x[1])) && Shape(r, x) && Active(r, INITIAL)
    ensures |x| <= 1
  {
    if |x| > 1 {
      assert Unsign(x)[0] == x[1] && x[1] in Unsign(x);
      ShapeBegins(r, x);
      if r == FloatDigits {
        FloatHead(Unsign(x));
      }
    }
  }

  lemma WordAndBlanks(order: seq<string>, w: string, bs: string, rest: string)
    requires Total(Table(order)) && IsWord(w) && !IsKeyword(order, w) && AllBlank(bs)
    requires rest != [] && rest[0] == '-'
    ensures Lex(Table(order), INITIAL, w + (bs + rest)) == Cons(Ident(w), Lex(Table(order), INITIAL, rest))
  {
    assert bs != [] ==> bs[0] in bs;
    assert (bs + rest)[0] == if bs != [] then bs[0] else rest[0];
    hide IsWord, Total, Table, Lex, IsKeyword;
    WordIsRead(order, w, bs + rest);
    BlanksAreSkipped(order, bs, rest);
  }

  /** What a minus sign, blanks and a number give. */
  lemma SignAndNumber(order: seq<string>, bs: string, y: string)
    requires Total(Table(order)) && AllBlank(bs) && IsNumeral(y)
    ensures y != [] && Lex(Table(order), INITIAL, ['-'] + (bs + y))
         == if bs != [] || y[0] == '.' then Cons(Sym('-'), Cons(NumberToken(y), Nil))
            else Cons(NumberToken("-" + y), Nil)
  {
    NumeralBegins(y);
    NumeralIsWritable(order, y);
    assert bs != [] ==> bs[0] in bs;
    assert (bs + y)[0] == if bs != [] then bs[0] else y[0];
    hide IsNumeral, Total, Table, Lex, NumberToken, Writable;
    if bs != [] || y[0] == '.' {
      MinusIsRead(order, bs + y);
      BlanksAreSkipped(order, bs, y);
      ReadsLast(order, NumberToken(y));
    } else {
      assert ['-'] + (bs + y) == "-" + y;
      ReadsLast(order, NumberToken("-" + y));
    }
  }

  /** Neither an operator nor a bracket stands between the two operands. */
  lemma TwoOperandsAreRejected(w: string, t: Token)
    requires t.Int? || t.Float?
    ensures ParseNode(Cons(Ident(w), Cons(t, Nil))) == None
  {
    var ts := Cons(t, Nil);
    var o := Leaf(Ident(w));
    assert Run(HaveExpr(Plain(o), Bottom), ts) == None;
    assert Step(HaveOperand(o, Bottom), ts) == Next(HaveExpr(Plain(o), Bottom), ts);
    assert Step(Want(Bottom), Cons(Ident(w), ts)) == Next(HaveOperand(o, Bottom), ts);
    assert Run(HaveOperand(o, Bottom), ts) == None;
  }

  lemma DifferenceIsParsed(w: string, t: Token)
    requires t.Int? || t.Float?
    ensures ParseNode(Cons(Ident(w), Cons(Sym('-'), Cons(t, Nil)))) == Some(OpBinary(ColumnRef(w), Minus, BuildLeaf(t)))
  {
    var l, r := Leaf(Ident(w)), Leaf(t);
    var e := Infix(l, Minus, r);
    assert LegalOperand(l) && LegalOperand(r) && Build(l) == ColumnRef(w) && Build(r) == BuildLeaf(t);
    assert Closes(l, Sym('-')) && Opens(InfixRule(Minus), r);
    assert LegalOperand(e) && Build(e) == OpBinary(Build(l), Minus, Build(r));
    assert LegalExpr(Plain(e)) && BuildExpr(Plain(e)) == Build(e);
    assert OperandTokens(r, Nil) == Cons(t, Nil);
    assert ExprTokens(Plain(e), Nil) == OperandTokens(e, Nil) == Cons(Ident(w), Cons(Sym('-'), Cons(t, Nil)));
    hide Build, BuildExpr, LegalOperand, LegalExpr, OperandTokens, ExprTokens;
    ParseIsComplete(Plain(e));
  }

  /** A word, a minus sign and a number are a subtraction if and only if blanks stand between the sign
      and the number, or the number begins with its decimal point. Blanks before the sign do not
      matter. In all other cases the text is rejected. */
  lemma SubtractionIffApart(w: string, b1: string, b2: string, y: string)
    requires IsWord(w) && !IsKeyword(KEYWORDS, w)
    requires AllBlank(b1) && AllBlank(b2) && IsNumeral(y)
    ensures y != [] && Understand(w + (b1 + (['-'] + (b2 + y))))
         == if b2 != [] || y[0] == '.' then Some(OpBinary(ColumnRef(w), Minus, BuildLeaf(NumberToken(y)))) else None
  {
    TableIsTotal(KEYWORDS);
    hide Lex, Table, IsKeyword, IsWord, KEYWORDS, ParseNode, Total, IsNumeral;
    SignAndNumber(KEYWORDS, b2, y);
    WordAndBlanks(KEYWORDS, w, b1, ['-'] + (b2 + y));
    DifferenceIsParsed(w, NumberToken(y));
    TwoOperandsAreRejected(w, NumberToken("-" + y));
  }
}
