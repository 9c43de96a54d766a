/**
 Lexing the spelling of a token list gives the list back: every spelling is the longest match in
 front of a blank, and no earlier rule takes it.
 */
module Spelled {
  import opened Tokens
  import opened Regex
  import opened Rules
  import opened Lexing
  import opened Languages

  predicate IsKeyword(order: seq<string>, s: string) {
    exists w | w in order :: SameLetters(s, w)
  }

  /** The text that stands for a token. An identifier is quoted only when it has to be. */
  function Text(order: seq<string>, t: Token): string {
    match t
    case Ident(n) => if IsWord(n) && !IsKeyword(order, n) then n else "\"" + n + "\""
    case Str(b) => "'" + b + "'"
    case Float(x) => x
    case Int(x) => x
    case Kw(k) => Spelling(k)
    case Sym(c) => [c]
    case NotEquals => "!="
    case LessEq => "<="
    case GreaterEq => ">="
    case Concat => "||"
    case SubQuery(_) => ""
  }

  /** Tokens that the scanner can return. */
  ghost predicate Writable(order: seq<string>, t: Token) {
    match t
    case Ident(n) => (IsWord(n) && !IsKeyword(order, n)) || IsQuotedBody(n)
    case Str(b) => Doubled(b)
    case Float(x) => IsUnsignedFloat(Unsign(x)) || (|x| >= 2 && x[0] == '.' && AllDigits(x[1..]))
    case Int(x) => IsUnsigned(Unsign(x))
    case Kw(k) => Spelling(k) != [] && Spelling(k) in order && SameLetters(Spelling(k), Spelling(k))
        && KeywordOf(Spelling(k)) == k
    case Sym(c) => c in SINGLES
    case SubQuery(_) => false
    case _ => true
  }

  // ----- the table and its rules -----

  lemma TableAt(order: seq<string>, j: nat)
    requires j < |Table(order)|
    ensures |Table(order)| == |order| + 17
    ensures Table(order)[j] == if j < 4 then BEFORE_KEYWORDS[j]
                               else if j < 4 + |order| then KeywordRule(order[j - 4])
                               else AFTER_KEYWORDS[j - 4 - |order|]
  {}

  /** The characters a match of `r` can begin with. */
  predicate CanBegin(r: Rule, c: char) {
    match r
    case Dashes => c == '-'
    case CommentEnd => c == '\n'
    case Blanks => c == ' ' || c == '\t' || c == '\n'
    case KeywordRule(_) => IsLetter(c) || c == '_'
    case BangEquals => c == '!'
    case LessGreater => c == '<'
    case LessEquals => c == '<'
    case GreaterEquals => c == '>'
    case DoubleBar => c == '|'
    case Single => c in SINGLES
    case FloatDigits => IsDigit(c) || c == '-'
    case FloatDot => c == '.'
    case Integer => IsDigit(c) || c == '-'
    case Quoted => IsQuote(c)
    case Word => IsLetter(c)
    case StringBody => c == '\''
    case _ => true
  }

  lemma ShapeBegins(r: Rule, x: string)
    requires Shape(r, x) && x != []
    ensures CanBegin(r, x[0])
  {
    match r
    case FloatDigits => FloatHead(Unsign(x));
    case Integer => assert Unsign(x)[0] in Unsign(x);
    case Blanks => assert x[0] in x;
    case _ =>
  }

  lemma {:induction false} LettersAvoid(w: string, c: char)
    requires !IsLetter(c) && c != '_'
    ensures Avoids(Letters(w), c)
  {
    if w != [] {
      LettersAvoid(w[1..], c);
    }
  }

  lemma {:induction false} LiteralAvoids(w: string, c: char)
    requires c !in w
    ensures Avoids(Literal(w), c)
  {
    if w != [] {
      assert w[0] in w;
      LiteralAvoids(w[1..], c);
    }
  }

  lemma NumbersAvoid(c: char)
    requires IsBlankChar(c)
    ensures Avoids(Pattern(FloatDigits), c) && Avoids(Pattern(FloatDot), c) && Avoids(Pattern(Integer), c)
  {
    assert Avoids(Char(Digit), c) && Avoids(Star(Char(Digit)), c) && Avoids(DIGITS, c);
    assert Avoids(Char(One('-')), c) && Avoids(SIGN, c);
    assert Avoids(Cat(Char(One('.')), Star(Char(Digit))), c);
    assert Avoids(Cat(DIGITS, Cat(Char(One('.')), Star(Char(Digit)))), c);
  }

  /** Rules whose matches never run across a blank or a newline. */
  predicate StaysShort(r: Rule) {
    !(r.Blanks? || r.CommentText? || r.CommentEnd? || r.Quoted? || r.StringBody? || r.AnyChar?)
  }

  lemma ShortAvoids(r: Rule, c: char)
    requires StaysShort(r) && IsBlankChar(c)
    ensures Avoids(Pattern(r), c)
  {
    hide Avoids;
    match r
    case KeywordRule(w) => LettersAvoid(w, c);
    case FloatDigits => NumbersAvoid(c);
    case FloatDot => NumbersAvoid(c);
    case Integer => NumbersAvoid(c);
    case Single => SingleAvoids(c);
    case Word => WordAvoids(c);
    case _ => SymbolAvoids(r, c);
  }

  lemma SingleAvoids(c: char)
    requires IsBlankChar(c)
    ensures Avoids(Pattern(Single), c)
  {
    if c in SINGLES {
      SingleIsPlain(c);
    }
  }

  lemma WordAvoids(c: char)
    requires IsBlankChar(c)
    ensures Avoids(Pattern(Word), c)
  {
    assert Avoids(Star(Char(WordChar)), c);
  }

  lemma SymbolAvoids(r: Rule, c: char)
    requires IsBlankChar(c)
    requires r.Dashes? || r.BangEquals? || r.LessGreater? || r.LessEquals? || r.GreaterEquals? || r.DoubleBar?
    ensures Avoids(Pattern(r), c)
  {
    match r
    case Dashes => LiteralAvoids("--", c);
    case BangEquals => LiteralAvoids("!=", c);
    case LessGreater => LiteralAvoids("<>", c);
    case LessEquals => LiteralAvoids("<=", c);
    case GreaterEquals => LiteralAvoids(">=", c);
    case DoubleBar => LiteralAvoids("||", c);
  }

  // ----- longest match -----

  /** A match that begins with none of the characters of the long rules stops before a blank. */
  lemma NoLonger(order: seq<string>, s: string, n: nat, m: nat, j: nat)
    requires 0 < n <= |s| && (n < |s| ==> IsBlankChar(s[n]))
    requires !IsBlankChar(s[0]) && s[0] != '\'' && !IsQuote(s[0])
    requires Fits(Table(order), INITIAL, s, m, j)
    ensures m <= n
  {
    if m > n {
      var r := Table(order)[j];
      var x := s[..m];
      assert x[n] == s[n] && x[0] == s[0] && s[n] in x;
      PatternClosed(r, x);
      ShapeBegins(r, x);
      if StaysShort(r) {
        ShortAvoids(r, s[n]);
        AvoidedIsAbsent(Pattern(r), s[n], x);
      }
    }
  }

  /** The rule that takes the text `w`: it has the shape, and no active earlier rule has it. */
  ghost predicate Takes(order: seq<string>, w: string, i: nat) {
    && i < |Table(order)| && w != [] && Active(Table(order)[i], INITIAL) && Shape(Table(order)[i], w)
    && forall j: nat | j < i && Active(Table(order)[j], INITIAL) :: !Shape(Table(order)[j], w)
  }

  lemma TakesIsBest(order: seq<string>, w: string, rest: string, i: nat)
    requires Takes(order, w, i)
    requires forall m: nat, j: nat | Fits(Table(order), INITIAL, w + rest, m, j) :: m <= |w|
    ensures IsBest(Table(order), INITIAL, w + rest, |w|, i)
  {
    var table, s := Table(order), w + rest;
    assert s[..|w|] == w;
    PatternClosed(table[i], w);
    forall j: nat | Fits(table, INITIAL, s, |w|, j) ensures i <= j {
      PatternClosed(table[j], w);
    }
  }

  // ----- which rule takes which text -----

  lemma SingleIsPlain(c: char)
    requires c in SINGLES
    ensures !IsLetter(c) && c != '_' && c != ' ' && c != '\t' && c != '\n'
  {}

  lemma SingleTakes(order: seq<string>, c: char)
    requires c in SINGLES
    ensures Takes(order, [c], 4 + |order| + 5)
  {
    SingleIsPlain(c);
    TableAt(order, 4 + |order| + 5);
    forall j: nat | j < 4 + |order| + 5 && Active(Table(order)[j], INITIAL)
      ensures !Shape(Table(order)[j], [c])
    {
      TableAt(order, j);
      NotSingle(Table(order)[j], c);
    }
  }

  lemma NotSingle(r: Rule, c: char)
    requires !IsLetter(c) && c != '_' && c != ' ' && c != '\t' && c != '\n'
    requires r.Dashes? || r.Blanks? || r.KeywordRule? || r.BangEquals? || r.LessGreater? || r.LessEquals?
             || r.GreaterEquals? || r.DoubleBar?
    ensures !Shape(r, [c])
  {
    assert |[c]| == 1 && c in [c];
    match r
    case KeywordRule(w) => assert |w| == 1 ==> !AnyCase(w[0]).Has([c][0]);
    case _ =>
  }

  function SymbolText(k: nat): string {
    match k
    case 0 => "!="
    case 1 => "<>"
    case 2 => "<="
    case 3 => ">="
    case _ => "||"
  }

  lemma SymbolTakes(order: seq<string>, k: nat)
    requires k < 5
    ensures Takes(order, SymbolText(k), 4 + |order| + k)
  {
    var w := SymbolText(k);
    TableAt(order, 4 + |order| + k);
    assert !IsLetter(w[0]) && w[0] != '_' && w[0] != '-' && w[0] != ' ' && w[0] != '\t' && w[0] != '\n';
    forall j: nat | j < 4 + |order| + k && Active(Table(order)[j], INITIAL)
      ensures !Shape(Table(order)[j], w)
    {
      TableAt(order, j);
      if Shape(Table(order)[j], w) {
        ShapeBegins(Table(order)[j], w);
      }
    }
  }

  lemma FloatTakes(order: seq<string>, w: string)
    requires IsUnsignedFloat(Unsign(w))
    ensures Takes(order, w, 4 + |order| + 6)
  {
    TableAt(order, 4 + |order| + 6);
    FloatHead(Unsign(w));
    forall j: nat | j < 4 + |order| + 6 && Active(Table(order)[j], INITIAL)
      ensures !Shape(Table(order)[j], w)
    {
      TableAt(order, j);
      if Shape(Table(order)[j], w) {
        ShapeBegins(Table(order)[j], w);
      }
    }
  }

  lemma DotTakes(order: seq<string>, w: string)
    requires |w| >= 2 && w[0] == '.' && AllDigits(w[1..])
    ensures Takes(order, w, 4 + |order| + 7)
  {
    TableAt(order, 4 + |order| + 7);
    forall j: nat | j < 4 + |order| + 7 && Active(Table(order)[j], INITIAL)
      ensures !Shape(Table(order)[j], w)
    {
      TableAt(order, j);
      if Shape(Table(order)[j], w) {
        ShapeBegins(Table(order)[j], w);
      }
    }
  }

  lemma IntegerTakes(order: seq<string>, w: string)
    requires IsUnsigned(Unsign(w))
    ensures Takes(order, w, 4 + |order| + 8)
  {
    TableAt(order, 4 + |order| + 8);
    IntegerIsNoFloat(Unsign(w));
    assert Unsign(w)[0] in Unsign(w);
    forall j: nat | j < 4 + |order| + 8 && Active(Table(order)[j], INITIAL)
      ensures !Shape(Table(order)[j], w)
    {
      TableAt(order, j);
      if Shape(Table(order)[j], w) {
        ShapeBegins(Table(order)[j], w);
      }
    }
  }

  lemma IntegerIsNoFloat(x: string)
    requires IsUnsigned(x)
    ensures !IsUnsignedFloat(x) && '.' !in x
  {
    assert forall i | 0 <= i < |x| :: x[i] in x;
  }

  lemma WordTakes(order: seq<string>, w: string)
    requires IsWord(w) && !IsKeyword(order, w)
    ensures Takes(order, w, 4 + |order| + 10)
  {
    TableAt(order, 4 + |order| + 10);
    forall j: nat | j < 4 + |order| + 10 && Active(Table(order)[j], INITIAL)
      ensures !Shape(Table(order)[j], w)
    {
      TableAt(order, j);
      if Shape(Table(order)[j], w) {
        ShapeBegins(Table(order)[j], w);
      }
    }
  }

  /** A word spelled like a keyword is taken by the first rule with that word. */
  lemma KeywordTakes(order: seq<string>, w: string) returns (i: nat)
    requires w != [] && IsKeyword(order, w)
    ensures 4 <= i < 4 + |order| && SameLetters(w, order[i - 4]) && Takes(order, w, i)
  {
    var w' :| w' in order && SameLetters(w, w');
    var a :| 0 <= a < |order| && order[a] == w';
    var first := FirstWord(order, w, a);
    i := first + 4;
    TableAt(order, i);
    forall j: nat | j < i && Active(Table(order)[j], INITIAL)
      ensures !Shape(Table(order)[j], w)
    {
      TableAt(order, j);
      if Shape(Table(order)[j], w) {
        ShapeBegins(Table(order)[j], w);
      }
    }
  }

  lemma {:induction false} FirstWord(order: seq<string>, w: string, a: nat) returns (i: nat)
    requires a < |order| && SameLetters(w, order[a])
    ensures i <= a && SameLetters(w, order[i]) && forall j | 0 <= j < i :: !SameLetters(w, order[j])
    decreases a
  {
    if exists j :: 0 <= j < a && SameLetters(w, order[j]) {
      var j :| 0 <= j < a && SameLetters(w, order[j]);
      i := FirstWord(order, w, j);
    } else {
      i := a;
    }
  }

  lemma QuotedTakes(order: seq<string>, w: string)
    requires Shape(Quoted, w)
    ensures Takes(order, w, 4 + |order| + 9)
  {
    TableAt(order, 4 + |order| + 9);
    forall j: nat | j < 4 + |order| + 9 && Active(Table(order)[j], INITIAL)
      ensures !Shape(Table(order)[j], w)
    {
      TableAt(order, j);
      if Shape(Table(order)[j], w) {
        ShapeBegins(Table(order)[j], w);
      }
    }
  }

  lemma StringTakes(order: seq<string>, w: string)
    requires Shape(StringBody, w)
    ensures Takes(order, w, 4 + |order| + 11)
  {
    TableAt(order, 4 + |order| + 11);
    forall j: nat | j < 4 + |order| + 11 && Active(Table(order)[j], INITIAL)
      ensures !Shape(Table(order)[j], w)
    {
      TableAt(order, j);
      if Shape(Table(order)[j], w) {
        ShapeBegins(Table(order)[j], w);
      }
    }
  }

  // ----- one lexeme -----

  /** A single quote behind a well-formed body ends the string, unless another one follows it. */
  lemma {:induction false} DoubledBreaks(b: string, c: string)
    requires Doubled(b) && Doubled(b + ['\''] + c)
    ensures c != [] && c[0] == '\''
    decreases |b|
  {
    var s := b + ['\''] + c;
    if b == [] {
      assert s == ['\''] + c;
    } else {
      var d := if b[0] != '\'' then 1 else 2;
      assert s[d..] == b[d..] + ['\''] + c;
      DoubledBreaks(b[d..], c);
    }
  }

  lemma InnerOf(b: string, rest: string, m: nat)
    requires |b| + 3 <= m <= |b| + 2 + |rest|
    ensures ("'" + b + "'" + rest)[..m][1..m - 1] == b + ['\''] + rest[..m - 3 - |b|]
    ensures ("'" + b + "'" + rest)[..m][m - 1] == rest[m - 3 - |b|]
  {
    var s := "'" + b + "'" + rest;
    assert s == ['\''] + (b + ['\''] + rest);
    assert s[1..m - 1] == (b + ['\''] + rest)[..m - 2];
  }

  lemma StringEnds(b: string, rest: string, m: nat)
    requires Doubled(b) && rest != [] && IsBlankChar(rest[0]) && |b| + 2 < m <= |b| + 2 + |rest|
    ensures !Shape(StringBody, ("'" + b + "'" + rest)[..m])
  {
    var c := rest[..m - 3 - |b|];
    InnerOf(b, rest, m);
    if c != [] && Doubled(b + ['\''] + c) {
      DoubledBreaks(b, c);
    }
  }

  lemma StringNoLonger(order: seq<string>, b: string, rest: string, m: nat, j: nat)
    requires Doubled(b) && (rest != [] ==> IsBlankChar(rest[0]))
    requires Fits(Table(order), INITIAL, "'" + b + "'" + rest, m, j)
    ensures m <= |b| + 2
  {
    var s := "'" + b + "'" + rest;
    if m > |b| + 2 {
      assert s[0] == '\'' && s[|b| + 2] == rest[0];
      StringEnds(b, rest, m);
      LongInString(Table(order)[j], s[..m], |b| + 2);
    }
  }

  /** A match that begins with a single quote and runs over a blank is a string. */
  lemma LongInString(r: Rule, x: string, n: nat)
    requires Active(r, INITIAL)
    requires 0 < n < |x| && x[0] == '\'' && IsBlankChar(x[n]) && Matches(Pattern(r), x)
    ensures Shape(StringBody, x)
  {
    PatternClosed(r, x);
    ShapeBegins(r, x);
  }

  lemma QuotedNoLonger(order: seq<string>, w: string, rest: string, m: nat, j: nat)
    requires Shape(Quoted, w) && (rest != [] ==> IsBlankChar(rest[0]))
    requires Fits(Table(order), INITIAL, w + rest, m, j)
    ensures m <= |w|
  {
    var n := |w|;
    if m > n {
      var x := (w + rest)[..m];
      assert x[0] == w[0] && x[n] == rest[0] && x[1..m - 1][n - 2] == w[n - 1];
      assert w[n - 1] in x[1..m - 1];
      LongInQuotes(Table(order)[j], x, n);
    }
  }

  lemma LongInQuotes(r: Rule, x: string, n: nat)
    requires Active(r, INITIAL)
    requires 0 < n < |x| && IsQuote(x[0]) && IsBlankChar(x[n]) && Matches(Pattern(r), x)
    ensures |x| >= 3 && IsQuotedBody(x[1..|x| - 1])
  {
    PatternClosed(r, x);
    ShapeBegins(r, x);
    assert Shape(Quoted, x);
  }

  /** A spelling in front of a blank or the end of the text is one lexeme, and gives its token. */
  lemma OneLexeme(order: seq<string>, t: Token, rest: string) returns (i: nat)
    requires Writable(order, t) && (rest != [] ==> IsBlankChar(rest[0]))
    ensures Text(order, t) != []
    ensures IsBest(Table(order), INITIAL, Text(order, t) + rest, |Text(order, t)|, i)
    ensures Act(Table(order)[i], Text(order, t)) == Emit(t)
  {
    var w := Text(order, t);
    i := TakingRule(order, t);
    var s := w + rest;
    forall m: nat, j: nat | Fits(Table(order), INITIAL, s, m, j) ensures m <= |w| {
      if t.Str? {
        assert s == "'" + t.body + "'" + rest;
        StringNoLonger(order, t.body, rest, m, j);
      } else if t.Ident? && !(IsWord(t.name) && !IsKeyword(order, t.name)) {
        assert w[1..|w| - 1] == t.name;
        QuotedNoLonger(order, w, rest, m, j);
      } else {
        TextBegins(order, t);
        assert s[0] == w[0] && (|w| < |s| ==> s[|w|] == rest[0]);
        NoLonger(order, s, |w|, m, j);
      }
    }
    TakesIsBest(order, w, rest, i);
  }

  lemma TextBegins(order: seq<string>, t: Token)
    requires Writable(order, t)
    ensures Text(order, t) != []
    ensures !IsBlankChar(Text(order, t)[0])
    ensures !t.Str? && !(t.Ident? && !(IsWord(t.name) && !IsKeyword(order, t.name))) ==>
              Text(order, t)[0] != '\'' && !IsQuote(Text(order, t)[0])
  {
    match t
    case Float(x) =>
      if IsUnsignedFloat(Unsign(x)) { FloatHead(Unsign(x)); }
    case Int(x) => assert Unsign(x)[0] in Unsign(x);
    case _ =>
  }

  lemma TakingRule(order: seq<string>, t: Token) returns (i: nat)
    requires Writable(order, t)
    ensures Takes(order, Text(order, t), i) && Act(Table(order)[i], Text(order, t)) == Emit(t)
  {
    if t.Ident? || t.Str? {
      i := TakingNameRule(order, t);
    } else if t.Kw? {
      assert IsKeyword(order, Spelling(t.word));
      i := KeywordTakes(order, Spelling(t.word));
      assert order[i - 4] == Spelling(t.word) by {
        assert forall k | 0 <= k < |order[i - 4]| :: Upper(Spelling(t.word)[k]) == order[i - 4][k] == Spelling(t.word)[k];
      }
      TableAt(order, i);
    } else if t.Float? || t.Int? {
      i := TakingNumberRule(order, t);
    } else {
      i := TakingSymbolRule(order, t);
    }
  }

  lemma TakingNameRule(order: seq<string>, t: Token) returns (i: nat)
    requires Writable(order, t) && (t.Ident? || t.Str?)
    ensures Takes(order, Text(order, t), i) && Act(Table(order)[i], Text(order, t)) == Emit(t)
  {
    var w := Text(order, t);
    if t.Str? {
      assert w[1..|w| - 1] == t.body;
      StringTakes(order, w);
      i := 4 + |order| + 11;
    } else if IsWord(t.name) && !IsKeyword(order, t.name) {
      WordTakes(order, t.name);
      i := 4 + |order| + 10;
    } else {
      assert w[1..|w| - 1] == t.name;
      QuotedTakes(order, w);
      i := 4 + |order| + 9;
    }
    TableAt(order, i);
  }

  lemma TakingNumberRule(order: seq<string>, t: Token) returns (i: nat)
    requires Writable(order, t) && (t.Float? || t.Int?)
    ensures Takes(order, Text(order, t), i) && Act(Table(order)[i], Text(order, t)) == Emit(t)
  {
    hide Takes;
    if t.Int? {
      IntegerTakes(order, t.text);
      i := 4 + |order| + 8;
    } else if IsUnsignedFloat(Unsign(t.text)) {
      FloatTakes(order, t.text);
      i := 4 + |order| + 6;
    } else {
      DotTakes(order, t.text);
      i := 4 + |order| + 7;
    }
    TableAt(order, i);
  }

  lemma TakingSymbolRule(order: seq<string>, t: Token) returns (i: nat)
    requires Writable(order, t)
    requires t.Sym? || t == NotEquals || t == LessEq || t == GreaterEq || t == Concat
    ensures Takes(order, Text(order, t), i) && Act(Table(order)[i], Text(order, t)) == Emit(t)
  {
    hide Matches, Takes;
    var k := if t.Sym? then 5 else if t == NotEquals then 0 else if t == LessEq then 2
        else if t == GreaterEq then 3 else 4;
    if t.Sym? {
      SingleTakes(order, t.code);
    } else {
      SymbolTakes(order, k);
    }
    i := 4 + |order| + k;
    TableAt(order, i);
  }

  // ----- token lists -----

  /** The tokens of a list, separated by single blanks. */
  function Spell(order: seq<string>, ts: List<Token>): string {
    match ts
    case Nil => ""
    case Cons(t, rest) => if rest.Nil? then Text(order, t) else Text(order, t) + " " + Spell(order, rest)
  }

  ghost predicate AllWritable(order: seq<string>, ts: List<Token>) {
    match ts
    case Nil => true
    case Cons(t, rest) => Writable(order, t) && AllWritable(order, rest)
  }

  /** A run of blanks in front of something else is one lexeme. */
  lemma BlankRun(order: seq<string>, bs: string, rest: string)
    requires bs != [] && AllBlank(bs) && (rest != [] ==> !IsBlankChar(rest[0]))
    ensures IsBest(Table(order), INITIAL, bs + rest, |bs|, 3)
  {
    var table, s := Table(order), bs + rest;
    TableAt(order, 3);
    assert s[..|bs|] == bs;
    PatternClosed(Blanks, bs);
    forall m: nat, j: nat | Fits(table, INITIAL, s, m, j)
      ensures m <= |bs| && (m == |bs| ==> 3 <= j)
    {
      var x := s[..m];
      assert x[0] == bs[0] && bs[0] in bs && (m > |bs| ==> x[|bs|] == rest[0] && x[|bs|] in x);
      TableAt(order, j);
      PatternClosed(table[j], x);
      ShapeBegins(table[j], x);
    }
  }

  lemma BlanksAreSkipped(order: seq<string>, bs: string, rest: string)
    requires Total(Table(order)) && AllBlank(bs) && (rest != [] ==> !IsBlankChar(rest[0]))
    ensures Lex(Table(order), INITIAL, bs + rest) == Lex(Table(order), INITIAL, rest)
  {
    if bs == [] {
      assert bs + rest == rest;
    } else {
      BlankRun(order, bs, rest);
      TableAt(order, 3);
      LexMoves(Table(order), INITIAL, bs + rest, |bs|, 3);
      assert (bs + rest)[|bs|..] == rest;
    }
  }

  /** Every list of writable tokens is read back, with its semantic values. */
  lemma {:induction false} SpellingIsRead(order: seq<string>, ts: List<Token>)
    requires AllWritable(order, ts)
    ensures Total(Table(order)) && Lex(Table(order), INITIAL, Spell(order, ts)) == ts
  {
    TableIsTotal(order);
    if ts.Cons? {
      if ts.tail.Cons? {
        SpellingIsRead(order, ts.tail);
        TextBegins(order, ts.tail.head);
        SpellBegins(order, ts.tail);
        ReadsOneMore(order, ts.head, Spell(order, ts.tail));
      } else {
        ReadsLast(order, ts.head);
      }
    }
  }

  lemma ReadsLast(order: seq<string>, t: Token)
    requires Writable(order, t) && Total(Table(order))
    ensures Lex(Table(order), INITIAL, Text(order, t)) == Cons(t, Nil)
  {
    var w := Text(order, t);
    var i := OneLexeme(order, t, "");
    assert w + "" == w && w[..|w|] == w && w[|w|..] == [];
    LexMoves(Table(order), INITIAL, w, |w|, i);
  }

  lemma ReadsOneMore(order: seq<string>, t: Token, tail: string)
    requires Writable(order, t) && Total(Table(order))
    requires tail != [] && !IsBlankChar(tail[0])
    ensures Lex(Table(order), INITIAL, Text(order, t) + " " + tail) == Cons(t, Lex(Table(order), INITIAL, tail))
  {
    var w := Text(order, t);
    var s := w + (" " + tail);
    var i := OneLexeme(order, t, " " + tail);
    assert s == w + " " + tail && s[..|w|] == w && s[|w|..] == " " + tail;
    LexMoves(Table(order), INITIAL, s, |w|, i);
    BlanksAreSkipped(order, " ", tail);
  }

  lemma SpellBegins(order: seq<string>, ts: List<Token>)
    requires ts.Cons? && Text(order, ts.head) != []
    ensures Spell(order, ts) != [] && Spell(order, ts)[0] == Text(order, ts.head)[0]
  {}
}
