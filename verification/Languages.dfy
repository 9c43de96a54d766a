/**
 The language of every scanner rule in closed form. Nothing after this module has to look at a
 regular expression again.
 */
module Languages {
  import opened Regex
  import opened Rules

  predicate AllDigits(s: string) {
    forall x | x in s :: IsDigit(x)
  }

  predicate IsBlankChar(c: char) {
    c == ' ' || c == '\t' || c == '\n'
  }

  predicate AllBlank(s: string) {
    forall x | x in s :: IsBlankChar(x)
  }

  predicate IsWord(s: string) {
    s != [] && IsLetter(s[0]) && forall x | x in s[1..] :: WordChar.Has(x)
  }

  /** `s` is `w` up to the case of letters. */
  predicate SameLetters(s: string, w: string) {
    |s| == |w| && forall i | 0 <= i < |s| :: AnyCase(w[i]).Has(s[i])
  }

  predicate IsQuote(x: char) {
    x == '"' || x == '`'
  }

  /** What may stand between identifier quotes. */
  predicate IsQuotedBody(s: string) {
    s != [] && forall x | x in s :: !IsQuote(x) && x != '\n'
  }

  /** Single quotes come in adjacent pairs. */
  predicate Doubled(s: string) {
    if s == [] then true
    else if s[0] != '\'' then Doubled(s[1..])
    else |s| >= 2 && s[1] == '\'' && Doubled(s[2..])
  }

  ghost predicate IsUnsignedFloat(s: string) {
    exists i | 0 < i < |s| :: AllDigits(s[..i]) && s[i] == '.' && AllDigits(s[i + 1..])
  }

  predicate IsUnsigned(s: string) {
    s != [] && AllDigits(s)
  }

  function Unsign(s: string): string {
    if s != [] && s[0] == '-' then s[1..] else s
  }

  ghost predicate Shape(r: Rule, s: string) {
    match r
    case Dashes => s == "--"
    case CommentText => '\n' !in s
    case CommentEnd => s == "\n"
    case Blanks => s != [] && AllBlank(s)
    case KeywordRule(w) => SameLetters(s, w)
    case BangEquals => s == "!="
    case LessGreater => s == "<>"
    case LessEquals => s == "<="
    case GreaterEquals => s == ">="
    case DoubleBar => s == "||"
    case Single => |s| == 1 && s[0] in SINGLES
    case FloatDigits => IsUnsignedFloat(Unsign(s))
    case FloatDot => s != [] && s[0] == '.' && AllDigits(s[1..])
    case Integer => IsUnsigned(Unsign(s))
    case Quoted => |s| >= 3 && IsQuote(s[0]) && IsQuotedBody(s[1..|s| - 1]) && IsQuote(s[|s| - 1])
    case Word => IsWord(s)
    case StringBody => |s| >= 2 && s[0] == '\'' && Doubled(s[1..|s| - 1]) && s[|s| - 1] == '\''
    case AnyChar => |s| == 1 && s[0] != '\n'
  }

  lemma PlusCharClosed(k: Class, s: string)
    ensures Matches(Plus(Char(k)), s) <==> s != [] && forall x | x in s :: k.Has(x)
  {
    CatCharClosed(k, Star(Char(k)), s);
    if s != [] {
      StarCharClosed(k, s[1..]);
      assert s == [s[0]] + s[1..];
    }
  }

  lemma CatEndCharClosed(r: Re, k: Class, s: string)
    ensures Matches(Cat(r, Char(k)), s) <==> |s| > 0 && k.Has(s[|s| - 1]) && Matches(r, s[..|s| - 1])
  {
    if |s| > 0 && k.Has(s[|s| - 1]) && Matches(r, s[..|s| - 1]) {
      assert Matches(Char(k), s[|s| - 1..]);
      CatIntro(r, Char(k), s, |s| - 1);
    }
    if Matches(Cat(r, Char(k)), s) {
      var i := CatSplit(r, Char(k), s);
      assert i == |s| - 1;
    }
  }

  lemma CatSignClosed(r: Re, s: string)
    ensures Matches(Cat(SIGN, r), s) <==> Matches(r, s) || (s != [] && s[0] == '-' && Matches(r, s[1..]))
  {
    if Matches(r, s) {
      assert s[..0] == [] && s[0..] == s;
      CatIntro(SIGN, r, s, 0);
    }
    if s != [] && s[0] == '-' && Matches(r, s[1..]) {
      assert Matches(Char(One('-')), s[..1]);
      CatIntro(SIGN, r, s, 1);
    }
    if Matches(Cat(SIGN, r), s) {
      var i := CatSplit(SIGN, r, s);
      if i == 0 {
        assert s[0..] == s;
      } else {
        assert Matches(Char(One('-')), s[..i]);
      }
    }
  }

  lemma {:induction false} LiteralClosed(w: string, s: string)
    ensures Matches(Literal(w), s) <==> s == w
  {
    if w != [] {
      CatCharClosed(One(w[0]), Literal(w[1..]), s);
      if s != [] {
        LiteralClosed(w[1..], s[1..]);
        assert s == [s[0]] + s[1..] && w == [w[0]] + w[1..];
      }
    }
  }

  lemma {:induction false} LettersClosed(w: string, s: string)
    ensures Matches(Letters(w), s) <==> SameLetters(s, w)
  {
    if w != [] {
      CatCharClosed(AnyCase(w[0]), Letters(w[1..]), s);
      if s != [] {
        LettersClosed(w[1..], s[1..]);
        assert SameLetters(s, w) <==> AnyCase(w[0]).Has(s[0]) && SameLetters(s[1..], w[1..]) by {
          if AnyCase(w[0]).Has(s[0]) && SameLetters(s[1..], w[1..]) {
            forall i | 0 <= i < |s| ensures AnyCase(w[i]).Has(s[i]) {
              if i > 0 {
                assert s[i] == s[1..][i - 1] && w[i] == w[1..][i - 1];
              }
            }
          }
        }
      }
    }
  }

  // ----- numbers -----

  lemma FractionClosed(s: string, i: nat)
    requires i <= |s|
    ensures Matches(Cat(Char(One('.')), Star(Char(Digit))), s[i..]) <==> i < |s| && s[i] == '.' && AllDigits(s[i + 1..])
  {
    CatCharClosed(One('.'), Star(Char(Digit)), s[i..]);
    if i < |s| {
      assert s[i..][1..] == s[i + 1..];
      StarCharClosed(Digit, s[i + 1..]);
    }
  }

  lemma UnsignedFloatClosed(s: string)
    ensures Matches(Cat(DIGITS, Cat(Char(One('.')), Star(Char(Digit)))), s) <==> IsUnsignedFloat(s)
  {
    var tail := Cat(Char(One('.')), Star(Char(Digit)));
    if Matches(Cat(DIGITS, tail), s) {
      var i := CatSplit(DIGITS, tail, s);
      PlusCharClosed(Digit, s[..i]);
      FractionClosed(s, i);
    }
    if IsUnsignedFloat(s) {
      var i :| 0 < i < |s| && AllDigits(s[..i]) && s[i] == '.' && AllDigits(s[i + 1..]);
      PlusCharClosed(Digit, s[..i]);
      FractionClosed(s, i);
      CatIntro(DIGITS, tail, s, i);
    }
  }

  lemma FloatHead(s: string)
    requires IsUnsignedFloat(s)
    ensures s != [] && IsDigit(s[0])
  {
    var i :| 0 < i < |s| && AllDigits(s[..i]) && s[i] == '.' && AllDigits(s[i + 1..]);
    assert s[0] == s[..i][0] && s[..i][0] in s[..i];
  }

  lemma FloatDigitsClosed(s: string)
    ensures Matches(Pattern(FloatDigits), s) <==> Shape(FloatDigits, s)
  {
    CatSignClosed(Cat(DIGITS, Cat(Char(One('.')), Star(Char(Digit)))), s);
    UnsignedFloatClosed(s);
    if IsUnsignedFloat(s) {
      FloatHead(s);
    }
    if s != [] && s[0] == '-' {
      UnsignedFloatClosed(s[1..]);
    }
  }

  lemma IntegerClosed(s: string)
    ensures Matches(Pattern(Integer), s) <==> Shape(Integer, s)
  {
    CatSignClosed(DIGITS, s);
    PlusCharClosed(Digit, s);
    if s != [] && s[0] == '-' {
      PlusCharClosed(Digit, s[1..]);
      assert s[0] in s && !IsDigit(s[0]);
    }
  }

  // ----- strings -----

  lemma {:induction false} RunIsDoubled(s: string, i: nat)
    requires i <= |s| && Doubled(s[i..])
    requires forall j | 0 <= j < i :: s[j] != '\''
    ensures Doubled(s)
    decreases i
  {
    if i > 0 {
      assert s[1..][i - 1..] == s[i..];
      RunIsDoubled(s[1..], i - 1);
    } else {
      assert s[0..] == s;
    }
  }

  lemma PairClosed(s: string)
    ensures Matches(Cat(Char(One('\'')), Char(One('\''))), s) <==> s == "''"
  {
    CatCharClosed(One('\''), Char(One('\'')), s);
    if |s| == 2 && s[0] == '\'' && s[1] == '\'' {
      assert s == "''" && s[1..] == "'";
    }
  }

  lemma {:induction false} StringItemsClosed(s: string)
    ensures Matches(STRING_ITEMS, s) <==> Doubled(s)
    decreases |s|
  {
    var run, pair := Plus(Char(Except("'"))), Cat(Char(One('\'')), Char(One('\'')));
    if Matches(STRING_ITEMS, s) && s != [] {
      var i :| 0 < i <= |s| && Matches(Alt(run, pair), s[..i]) && Matches(STRING_ITEMS, s[i..]);
      StringItemsClosed(s[i..]);
      PlusCharClosed(Except("'"), s[..i]);
      PairClosed(s[..i]);
      if Matches(run, s[..i]) {
        forall j | 0 <= j < i ensures s[j] != '\'' {
          assert s[j] in s[..i];
        }
        RunIsDoubled(s, i);
      } else {
        assert s[0] == s[..i][0] && s[1] == s[..i][1];
      }
    }
    if Doubled(s) && s != [] {
      var i := if s[0] != '\'' then 1 else 2;
      StringItemsClosed(s[i..]);
      PlusCharClosed(Except("'"), s[..i]);
      PairClosed(s[..i]);
      assert i == 2 ==> s[..2] == "''";
      assert Matches(Alt(run, pair), s[..i]);
    }
  }

  lemma QuotedClosed(s: string)
    ensures Matches(Pattern(Quoted), s) <==> Shape(Quoted, s)
  {
    var body := Plus(Char(Except("\"\n`")));
    CatCharClosed(Among("\"`"), Cat(body, QUOTE), s);
    if s != [] {
      var t := s[1..];
      CatEndCharClosed(body, Among("\"`"), t);
      if t != [] {
        PlusCharClosed(Except("\"\n`"), t[..|t| - 1]);
        assert t[..|t| - 1] == s[1..|s| - 1] && t[|t| - 1] == s[|s| - 1];
      }
    }
  }

  lemma StringClosed(s: string)
    ensures Matches(Pattern(StringBody), s) <==> Shape(StringBody, s)
  {
    CatCharClosed(One('\''), Cat(STRING_ITEMS, Char(One('\''))), s);
    if s != [] {
      var t := s[1..];
      CatEndCharClosed(STRING_ITEMS, One('\''), t);
      if t != [] {
        StringItemsClosed(t[..|t| - 1]);
        assert t[..|t| - 1] == s[1..|s| - 1] && t[|t| - 1] == s[|s| - 1];
      }
    }
  }

  /** The pattern of each rule matches exactly the strings of its shape. */
  lemma PatternClosed(r: Rule, s: string)
    ensures Matches(Pattern(r), s) <==> Shape(r, s)
  {
    match r
    case Dashes => LiteralClosed("--", s);
    case CommentText => StarCharClosed(Except("\n"), s);
    case CommentEnd =>
    case Blanks => PlusCharClosed(Among(" \t\n"), s);
    case KeywordRule(w) => LettersClosed(w, s);
    case BangEquals => LiteralClosed("!=", s);
    case LessGreater => LiteralClosed("<>", s);
    case LessEquals => LiteralClosed("<=", s);
    case GreaterEquals => LiteralClosed(">=", s);
    case DoubleBar => LiteralClosed("||", s);
    case Single =>
    case FloatDigits => FloatDigitsClosed(s);
    case FloatDot =>
      CatCharClosed(One('.'), Star(Char(Digit)), s);
      if s != [] {
        StarCharClosed(Digit, s[1..]);
      }
    case Integer => IntegerClosed(s);
    case Quoted => QuotedClosed(s);
    case Word =>
      CatCharClosed(Letter, Star(Char(WordChar)), s);
      if s != [] {
        StarCharClosed(WordChar, s[1..]);
      }
    case StringBody => StringClosed(s);
    case AnyChar =>
  }
}
