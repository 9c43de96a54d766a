/**
 The lexemes of every token, written out: which texts are read as which token. A text in front of a
 blank is read as a token exactly when it is one of its lexemes.
 */
module Lexemes {
  import opened Tokens
  import opened Regex
  import opened Rules
  import opened Lexing
  import opened Languages
  import opened Spelled

  predicate IsBigLetter(c: char) {
    'A' <= c <= 'Z'
  }

  predicate IsSmallLetter(c: char) {
    'a' <= c <= 'z'
  }

  predicate IsFigure(c: char) {
    '0' <= c <= '9'
  }

  predicate AllFigures(s: string) {
    forall i | 0 <= i < |s| :: IsFigure(s[i])
  }

  /** A letter, then letters, figures and underscores. */
  predicate IsName(s: string) {
    && s != [] && (IsBigLetter(s[0]) || IsSmallLetter(s[0]))
    && forall i | 0 < i < |s| :: IsBigLetter(s[i]) || IsSmallLetter(s[i]) || IsFigure(s[i]) || s[i] == '_'
  }

  /** `s` is made of letters and underscores, and is `w` when its small letters are made capitals. */
  predicate SameWord(s: string, w: string) {
    |s| == |w| && forall i | 0 <= i < |s| ::
      if IsSmallLetter(s[i]) then s[i] as int - 32 == w[i] as int
      else (IsBigLetter(s[i]) || s[i] == '_') && s[i] == w[i]
  }

  /** The keyword token of the rule with the word `w`. */
  predicate IsWordOf(w: string, k: Keyword) {
    match k
    case RECURSIVE => w == "RECURSIVE"
    case DISTINCT => w == "DISTINCT"
    case BETWEEN => w == "BETWEEN"
    case NOTNULL => w == "NOTNULL"
    case REPLACE => w == "REPLACE"
    case EXISTS => w == "EXISTS"
    case ISNULL => w == "ISNULL"
    case CASE => w == "CASE"
    case ELSE => w == "ELSE"
    case JOIN => w == "JOIN"
    case LIKE => w == "LIKE"
    case NULL => w == "NULL"
    case TEMP => w == "TEMP"
    case TEXT => w == "TEXT"
    case THEN => w == "THEN"
    case WHEN => w == "WHEN"
    case AND => w == "AND"
    case END => w == "END"
    case KEY => w == "KEY"
    case NOT => w == "NOT"
    case AS => w == "AS"
    case IN => w == "IN"
    case IS => w == "IS"
    case ON => w == "ON"
    case OR => w == "OR"
    case Reserved(x) =>
      w == x && w !in ["RECURSIVE", "DISTINCT", "BETWEEN", "NOTNULL", "REPLACE", "EXISTS", "ISNULL", "CASE", "ELSE",
                       "JOIN", "LIKE", "NULL", "TEMP", "TEXT", "THEN", "WHEN", "AND", "END", "KEY", "NOT", "AS", "IN",
                       "IS", "ON", "OR"]
  }

  predicate InQuotes(s: string, n: string) {
    && |s| >= 3 && (s[0] == '"' || s[0] == '`') && (s[|s| - 1] == '"' || s[|s| - 1] == '`') && s[1..|s| - 1] == n
    && forall i | 0 <= i < |n| :: n[i] != '"' && n[i] != '`' && n[i] != '\n'
  }

  /** Optional sign and figures. */
  predicate IsWhole(s: string) {
    (s != [] && AllFigures(s)) || (|s| >= 2 && s[0] == '-' && AllFigures(s[1..]))
  }

  /** Figures with a point among or behind them, and an optional sign in front; or a point, no sign,
      and at least one figure. */
  ghost predicate IsDecimal(s: string) {
    || (exists i | 0 <= i < |s| :: s[i] == '.' && AllFigures(s[i + 1..]) && IsWhole(s[..i]))
    || (|s| >= 2 && s[0] == '.' && AllFigures(s[1..]))
  }

  /** The text `s` is a lexeme of the token `t`, with the keywords `order`. */
  ghost predicate IsLexeme(order: seq<string>, s: string, t: Token) {
    match t
    case NotEquals => s == "!=" || s == "<>"
    case LessEq => s == "<="
    case GreaterEq => s == ">="
    case Concat => s == "||"
    case Sym(c) =>
      s == [c] && (c == '-' || c == '+' || c == '*' || c == '/' || c == '(' || c == ')' || c == '{' || c == '}'
                   || c == ',' || c == '.' || c == ';' || c == '<' || c == '>' || c == '=' || c == '^' || c == '%'
                   || c == ':' || c == '?' || c == '[' || c == ']' || c == '|')
    case Kw(k) => s != [] && exists w | w in order :: SameWord(s, w) && IsWordOf(w, k)
    case Ident(n) => (s == n && IsName(n) && forall w | w in order :: !SameWord(s, w)) || InQuotes(s, n)
    case Int(x) => s == x && IsWhole(s)
    case Float(x) => s == x && IsDecimal(s)
    case Str(b) => s == "'" + b + "'" && Doubled(b)
    case SubQuery(_) => false
  }

  // ----- the closed forms in these words -----

  lemma WordForms(s: string)
    ensures IsName(s) <==> IsWord(s)
  {
    if IsName(s) {
      assert forall x | x in s[1..] :: WordChar.Has(x);
    }
    if IsWord(s) {
      assert forall i | 0 < i < |s| :: s[i] == s[1..][i - 1] && s[i] in s[1..];
    }
  }

  lemma FigureForms(s: string)
    ensures AllFigures(s) <==> AllDigits(s)
  {
    assert AllDigits(s) ==> forall i | 0 <= i < |s| :: s[i] in s;
  }

  lemma SameForms(s: string, w: string)
    ensures SameWord(s, w) <==> SameLetters(s, w)
  {
    if |s| == |w| {
      forall i | 0 <= i < |s| ensures IsSmallLetter(s[i]) ==> Upper(s[i]) as int == s[i] as int - 32 {
      }
    }
  }

  lemma WholeForms(s: string)
    ensures IsWhole(s) <==> IsUnsigned(Unsign(s))
  {
    FigureForms(s);
    if s != [] {
      FigureForms(s[1..]);
    }
  }

  lemma DecimalForms(s: string)
    ensures IsDecimal(s) <==> IsUnsignedFloat(Unsign(s)) || (|s| >= 2 && s[0] == '.' && AllDigits(s[1..]))
  {
    if |s| >= 2 {
      FigureForms(s[1..]);
    }
    if i :| 0 <= i < |s| && s[i] == '.' && AllFigures(s[i + 1..]) && IsWhole(s[..i]) {
      PointForms(s, i);
    }
    if IsUnsignedFloat(Unsign(s)) {
      var u := Unsign(s);
      var i :| 0 < i < |u| && AllDigits(u[..i]) && u[i] == '.' && AllDigits(u[i + 1..]);
      PointForms(s, if s[0] == '-' then i + 1 else i);
    }
  }

  lemma PointForms(s: string, i: nat)
    requires i < |s|
    ensures var u, j := Unsign(s), if s[0] == '-' then i - 1 else i;
            s[i] == '.' && AllFigures(s[i + 1..]) && IsWhole(s[..i])
            <==> 0 < j < |u| && AllDigits(u[..j]) && u[j] == '.' && AllDigits(u[j + 1..])
  {
    FigureForms(s[i + 1..]);
    WholeForms(s[..i]);
    if s[0] == '-' && i > 0 {
      assert s[..i][1..] == s[1..][..i - 1] && s[1..][i - 1 + 1..] == s[i + 1..];
    }
  }

  lemma QuotedForms(s: string, n: string)
    ensures InQuotes(s, n) <==> Shape(Quoted, s) && n == s[1..|s| - 1]
  {
    if Shape(Quoted, s) {
      var b := s[1..|s| - 1];
      assert forall i | 0 <= i < |b| :: b[i] in b;
    }
  }

  lemma WordOfRule(w: string, k: Keyword)
    ensures IsWordOf(w, k) <==> k == KeywordOf(w)
  {
    hide IsWordOf, KeywordOf;
    if IsWordOf(w, k) {
      WordOfIsUnique(w, k);
    }
    KeywordHasWord(w);
  }

  lemma KeywordHasWord(w: string)
    ensures IsWordOf(w, KeywordOf(w))
  {}

  lemma WordOfIsUnique(w: string, k: Keyword)
    requires IsWordOf(w, k)
    ensures k == KeywordOf(w)
  {}

  lemma SingleForms(c: char)
    ensures IsLexeme([], [c], Sym(c)) <==> c in SINGLES
  {}

  // ----- what is emitted is a lexeme -----

  /** Whatever the text, the start condition and the rule that wins: the lexeme is one of the token's. */
  lemma EmittedIsLexeme(order: seq<string>, start: Start, s: string, n: nat, i: nat, t: Token)
    requires IsBest(Table(order), start, s, n, i) && Act(Table(order)[i], s[..n]) == Emit(t)
    ensures IsLexeme(order, s[..n], t)
  {
    hide Matches, KeywordOf, IsLexeme;
    var r, x := Table(order)[i], s[..n];
    PatternClosed(r, x);
    TableAt(order, i);
    match r
    case KeywordRule(w) => KeywordLexeme(order, x, i);
    case Word =>
      WordForms(x);
      NoKeywordFits(order, start, s, n, i);
      WordLexeme(order, x);
    case FloatDot =>
      if n == 1 {
        assert x == ".";
        SingleFits(order, start, s);
      }
      NumberLexeme(order, x);
    case Quoted => QuotedLexeme(order, x);
    case StringBody => StringLexeme(order, x);
    case Single => SingleLexeme(order, x);
    case FloatDigits => NumberLexeme(order, x);
    case Integer => NumberLexeme(order, x);
    case _ => SymbolLexeme(order, r, x);
  }

  lemma KeywordLexeme(order: seq<string>, x: string, i: nat)
    requires x != [] && 4 <= i < 4 + |order| && SameLetters(x, order[i - 4])
    ensures IsLexeme(order, x, Kw(KeywordOf(order[i - 4])))
  {
    hide KeywordOf, IsWordOf, SameWord;
    SameForms(x, order[i - 4]);
    WordOfRule(order[i - 4], KeywordOf(order[i - 4]));
  }

  lemma NoKeywordFits(order: seq<string>, start: Start, s: string, n: nat, i: nat)
    requires IsBest(Table(order), start, s, n, i) && i >= 4 + |order|
    ensures forall w | w in order :: !SameWord(s[..n], w)
  {
    hide Matches;
    forall w | w in order ensures !SameWord(s[..n], w) {
      var k :| 0 <= k < |order| && order[k] == w;
      TableAt(order, k + 4);
      PatternClosed(KeywordRule(w), s[..n]);
      SameForms(s[..n], w);
      assert !Fits(Table(order), start, s, n, k + 4);
    }
  }

  lemma SingleFits(order: seq<string>, start: Start, s: string)
    requires s != [] && s[0] == '.'
    ensures Fits(Table(order), start, s, 1, 4 + |order| + 5)
  {
    hide Matches;
    TableAt(order, 4 + |order| + 5);
    PatternClosed(Single, s[..1]);
    SingleForms('.');
  }

  lemma WordLexeme(order: seq<string>, x: string)
    requires IsName(x) && forall w | w in order :: !SameWord(x, w)
    ensures IsLexeme(order, x, Ident(x))
  {}

  lemma NumberLexeme(order: seq<string>, x: string)
    ensures IsUnsigned(Unsign(x)) ==> IsLexeme(order, x, Int(x))
    ensures IsUnsignedFloat(Unsign(x)) || (|x| >= 2 && x[0] == '.' && AllDigits(x[1..])) ==>
              IsLexeme(order, x, Float(x))
  {
    hide IsUnsignedFloat, IsDecimal;
    WholeForms(x);
    DecimalForms(x);
  }

  lemma QuotedLexeme(order: seq<string>, x: string)
    requires Shape(Quoted, x)
    ensures IsLexeme(order, x, Ident(x[1..|x| - 1]))
  {
    QuotedForms(x, x[1..|x| - 1]);
  }

  lemma StringLexeme(order: seq<string>, x: string)
    requires Shape(StringBody, x)
    ensures IsLexeme(order, x, Str(x[1..|x| - 1]))
  {
    assert x == "'" + x[1..|x| - 1] + "'";
  }

  lemma SingleLexeme(order: seq<string>, x: string)
    requires |x| == 1 && x[0] in SINGLES
    ensures IsLexeme(order, x, Sym(x[0]))
  {
    assert x == [x[0]];
    SingleForms(x[0]);
  }

  lemma SymbolLexeme(order: seq<string>, r: Rule, x: string)
    requires x != [] && Shape(r, x) && Act(r, x).Emit?
    requires r.BangEquals? || r.LessGreater? || r.LessEquals? || r.GreaterEquals? || r.DoubleBar?
    ensures IsLexeme(order, x, Act(r, x).token)
  {}

  // ----- what is a lexeme is emitted -----

  /** The rule that takes a lexeme, and its token. */
  lemma LexemeIsTaken(order: seq<string>, w: string, t: Token) returns (i: nat)
    requires IsLexeme(order, w, t)
    ensures Takes(order, w, i) && Act(Table(order)[i], w) == Emit(t)
  {
    hide Takes, SameWord, IsWordOf, KeywordOf;
    match t
    case Kw(k) =>
      i := KeywordIsTaken(order, w, k);
    case Ident(n) =>
      i := NameIsTaken(order, w, n);
    case Str(b) =>
      assert w[1..|w| - 1] == b;
      StringTakes(order, w);
      i := 4 + |order| + 11;
      TableAt(order, i);
    case Int(_) =>
      WholeForms(w);
      IntegerTakes(order, w);
      i := 4 + |order| + 8;
      TableAt(order, i);
    case Float(_) =>
      i := DecimalIsTaken(order, w);
    case Sym(c) =>
      SingleForms(c);
      SingleTakes(order, c);
      i := 4 + |order| + 5;
      TableAt(order, i);
    case _ =>
      i := SymbolIsTaken(order, w, t);
  }

  lemma KeywordIsTaken(order: seq<string>, w: string, k: Keyword) returns (i: nat)
    requires IsLexeme(order, w, Kw(k))
    ensures Takes(order, w, i) && Act(Table(order)[i], w) == Emit(Kw(k))
  {
    hide Takes, SameWord, IsWordOf, KeywordOf, SameLetters;
    var word :| word in order && SameWord(w, word) && IsWordOf(word, k);
    SameForms(w, word);
    i := KeywordTakes(order, w);
    TableAt(order, i);
    OneCapital(w, word, order[i - 4]);
    WordOfRule(word, k);
  }

  lemma OneCapital(s: string, w: string, w': string)
    requires SameLetters(s, w) && SameLetters(s, w')
    ensures w == w'
  {}

  lemma NameIsTaken(order: seq<string>, w: string, n: string) returns (i: nat)
    requires IsLexeme(order, w, Ident(n))
    ensures Takes(order, w, i) && Act(Table(order)[i], w) == Emit(Ident(n))
  {
    hide Takes, SameWord, SameLetters;
    if InQuotes(w, n) {
      QuotedForms(w, n);
      QuotedTakes(order, w);
      i := 4 + |order| + 9;
    } else {
      WordForms(w);
      forall word | word in order ensures !SameLetters(w, word) {
        SameForms(w, word);
      }
      WordTakes(order, w);
      i := 4 + |order| + 10;
    }
    TableAt(order, i);
  }

  lemma DecimalIsTaken(order: seq<string>, w: string) returns (i: nat)
    requires IsDecimal(w)
    ensures Takes(order, w, i) && Act(Table(order)[i], w) == Emit(Float(w))
  {
    hide Takes, IsDecimal, IsUnsignedFloat;
    DecimalForms(w);
    if IsUnsignedFloat(Unsign(w)) {
      FloatTakes(order, w);
      i := 4 + |order| + 6;
    } else {
      DotTakes(order, w);
      i := 4 + |order| + 7;
    }
    TableAt(order, i);
  }

  lemma SymbolIsTaken(order: seq<string>, w: string, t: Token) returns (i: nat)
    requires IsLexeme(order, w, t) && (t == NotEquals || t == LessEq || t == GreaterEq || t == Concat)
    ensures Takes(order, w, i) && Act(Table(order)[i], w) == Emit(t)
  {
    hide Takes;
    var k := if w == "!=" then 0 else if w == "<>" then 1 else if w == "<=" then 2 else if w == ">=" then 3 else 4;
    SymbolTakes(order, k);
    i := 4 + |order| + k;
    TableAt(order, i);
  }

  lemma LexemeBegins(order: seq<string>, w: string, t: Token)
    requires IsLexeme(order, w, t)
    ensures w != [] && !IsBlankChar(w[0])
    ensures !t.Str? && !(t.Ident? && InQuotes(w, t.name)) ==> w[0] != '\'' && !IsQuote(w[0])
  {
  }

  /** A lexeme in front of a blank or the end of the text is read as its token, and the scan goes on
      behind it. */
  lemma LexemeIsRead(order: seq<string>, w: string, t: Token, rest: string)
    requires IsLexeme(order, w, t) && (rest != [] ==> IsBlankChar(rest[0]))
    ensures Total(Table(order)) && w != []
    ensures Lex(Table(order), INITIAL, w + rest) == Cons(t, Lex(Table(order), INITIAL, rest))
  {
    hide Takes, IsLexeme, Lex, Total, Matches, Act;
    TableIsTotal(order);
    var i := LexemeIsTaken(order, w, t);
    LexemeBegins(order, w, t);
    forall m: nat, j: nat | Fits(Table(order), INITIAL, w + rest, m, j) ensures m <= |w| {
      LexemeNoLonger(order, w, t, rest, m, j);
    }
    TakesIsBest(order, w, rest, i);
    assert (w + rest)[..|w|] == w && (w + rest)[|w|..] == rest;
    LexMoves(Table(order), INITIAL, w + rest, |w|, i);
  }

  lemma LexemeNoLonger(order: seq<string>, w: string, t: Token, rest: string, m: nat, j: nat)
    requires IsLexeme(order, w, t) && (rest != [] ==> IsBlankChar(rest[0]))
    requires Fits(Table(order), INITIAL, w + rest, m, j)
    ensures m <= |w|
  {
    hide Table, Matches, SameWord, IsWordOf;
    if t.Str? {
      StringNoLonger(order, t.body, rest, m, j);
    } else if t.Ident? && InQuotes(w, t.name) {
      QuotedForms(w, t.name);
      QuotedNoLonger(order, w, rest, m, j);
    } else {
      LexemeBegins(order, w, t);
      assert (w + rest)[0] == w[0] && (|w| < |w + rest| ==> (w + rest)[|w|] == rest[0]);
      NoLonger(order, w + rest, |w|, m, j);
    }
  }

  /** A text in front of a blank or the end is one match that gives the token if and only if it is one
      of the token's lexemes. */
  lemma LexemeIff(order: seq<string>, w: string, t: Token, rest: string)
    requires (rest != [] ==> IsBlankChar(rest[0]))
    ensures IsLexeme(order, w, t) <==>
              exists i: nat :: IsBest(Table(order), INITIAL, w + rest, |w|, i) && Act(Table(order)[i], w) == Emit(t)
  {
    hide Takes, IsLexeme, Matches, Act;
    assert (w + rest)[..|w|] == w;
    if i: nat :| IsBest(Table(order), INITIAL, w + rest, |w|, i) && Act(Table(order)[i], w) == Emit(t) {
      EmittedIsLexeme(order, INITIAL, w + rest, |w|, i, t);
    }
    if IsLexeme(order, w, t) {
      var i := LexemeIsTaken(order, w, t);
      forall m: nat, j: nat | Fits(Table(order), INITIAL, w + rest, m, j) ensures m <= |w| {
        LexemeNoLonger(order, w, t, rest, m, j);
      }
      TakesIsBest(order, w, rest, i);
    }
  }
}
