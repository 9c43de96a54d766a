/**
 Comments. COMMENT is an inclusive start condition, so the ordinary rules compete with the comment
 rules inside a comment. This module gives the exact condition under which a comment ends at its
 newline.
 */
module Comments {
  import opened Tokens
  import opened Regex
  import opened Rules
  import opened Lexing
  import opened Languages
  import opened Spelled

  /** The start condition of the scanner once it has consumed exactly `k` characters without
      returning a token, if it ever stands there. */
  ghost function StateAt(table: seq<Rule>, start: Start, s: string, k: nat): Option<Start>
    requires Total(table)
    decreases |s|
  {
    if k == 0 then Some(start)
    else if s == [] then None
    else
      var (n, i) := Best(table, start, s);
      if n > k then None else
      match Act(table[i], s[..n])
      case Skip => StateAt(table, start, s[n..], k - n)
      case Begin(start') => StateAt(table, start', s[n..], k - n)
      case _ => None
  }

  lemma StateMoves(table: seq<Rule>, start: Start, s: string, k: nat, n: nat, i: nat)
    requires Total(table) && IsBest(table, start, s, n, i) && k > 0
    ensures StateAt(table, start, s, k)
         == (if n > k then None else
             match Act(table[i], s[..n])
             case Skip => StateAt(table, start, s[n..], k - n)
             case Begin(start') => StateAt(table, start', s[n..], k - n)
             case _ => None)
  {
    var b := Best(table, start, s);
    BestIsUnique(table, start, s, n, i, b.0, b.1);
  }

  /** A position reached in silence gives no tokens before it. */
  lemma {:induction false} SilentPrefix(table: seq<Rule>, start: Start, s: string, k: nat)
    requires Total(table) && StateAt(table, start, s, k).Some?
    ensures k <= |s| && Lex(table, start, s) == Lex(table, StateAt(table, start, s, k).value, s[k..])
    decreases |s|
  {
    if k == 0 {
      assert s[0..] == s;
    } else {
      var (n, i) := Best(table, start, s);
      var action := Act(table[i], s[..n]);
      var start' := if action.Begin? then action.start else start;
      SilentPrefix(table, start', s[n..], k - n);
      assert s[n..][k - n..] == s[k..];
    }
  }

  /** A string rule match that leaves the comment line. */
  ghost predicate StringCrosses(c: string, r: string) {
    exists m: nat :: |c| < m <= |c| + 1 + |r| && Shape(StringBody, (c + "\n" + r)[..m])
  }

  /** When the text `c` of a comment, followed by a newline and `r`, ends the comment at the newline. */
  ghost predicate Resumes(c: string, r: string) {
    && (c != [] ==> !AllBlank(c))
    && (r != [] ==> !IsBlankChar(r[0]))
    && !StringCrosses(c, r)
  }

  /** Which rule matches a text that holds a newline. */
  lemma AcrossNewline(r: Rule, x: string)
    requires Matches(Pattern(r), x) && '\n' in x
    ensures (r == CommentEnd && x == "\n") || (r == Blanks && AllBlank(x)) || (r == StringBody && Shape(StringBody, x))
  {
    PatternClosed(r, x);
    if StaysShort(r) {
      ShortAvoids(r, '\n');
      AvoidedIsAbsent(Pattern(r), '\n', x);
    } else if r == Quoted {
      forall k | 0 < k < |x| - 1 ensures x[k] != '\n' {
        assert x[1..|x| - 1][k - 1] in x[1..|x| - 1];
      }
    }
  }

  /** The two dashes are always taken alone. */
  lemma DashesLexeme(order: seq<string>, s: string)
    ensures IsBest(Table(order), INITIAL, "--" + s, 2, 0)
  {
    var table, t := Table(order), "--" + s;
    TableAt(order, 0);
    assert t[..2] == "--";
    PatternClosed(Dashes, "--");
    forall m: nat, j: nat | Fits(table, INITIAL, t, m, j) ensures m <= 2 {
      TableAt(order, j);
      var x := t[..m];
      assert x[0] == '-' && (m > 1 ==> x[1] == '-');
      PatternClosed(table[j], x);
      DashedIsShort(table[j], x);
    }
  }

  lemma DashedIsShort(r: Rule, x: string)
    requires x != [] && x[0] == '-' && (|x| > 1 ==> x[1] == '-') && Shape(r, x) && Active(r, INITIAL)
    ensures |x| <= 2
  {
    if |x| > 1 {
      assert Unsign(x)[0] == '-' && '-' in Unsign(x);
      ShapeBegins(r, x);
      if r == FloatDigits {
        FloatHead(Unsign(x));
      }
    }
  }

  /** At the end of a comment line. */
  lemma NewlineLexeme(order: seq<string>, r: string)
    ensures (r != [] ==> !IsBlankChar(r[0])) ==> IsBest(Table(order), COMMENT, "\n" + r, 1, 2)
    ensures r != [] && IsBlankChar(r[0]) ==>
              exists n: nat, i: nat :: n >= 2 && IsBest(Table(order), COMMENT, "\n" + r, n, i)
  {
    var table, s := Table(order), "\n" + r;
    TableAt(order, 2);
    TableAt(order, 3);
    assert s[..1] == "\n";
    if r != [] && IsBlankChar(r[0]) {
      assert s[..2] == ['\n', r[0]];
      PatternClosed(Blanks, s[..2]);
      assert Fits(table, COMMENT, s, 2, 3);
      var n, i := BestExists(table, COMMENT, s, 2, 3);
      assert IsBest(table, COMMENT, s, n, i) && n >= 2;
    } else {
      PatternClosed(CommentEnd, "\n");
      forall m: nat, j: nat | Fits(table, COMMENT, s, m, j)
        ensures m <= 1 && (m == 1 ==> 2 <= j)
      {
        var x := s[..m];
        TableAt(order, j);
        assert x[0] == '\n' && x[0] in x && (m > 1 ==> x[1] == r[0] && x[1] in x);
        AcrossNewline(table[j], x);
      }
    }
  }

  /** Inside a comment line that does not resume early: the line is taken up to its newline. */
  lemma LineLexeme(order: seq<string>, c: string, r: string) returns (i: nat)
    requires c != [] && '\n' !in c && !AllBlank(c) && !StringCrosses(c, r)
    ensures IsBest(Table(order), COMMENT, c + "\n" + r, |c|, i)
    ensures Table(order)[i] == CommentText || Table(order)[i] == Dashes
  {
    var table, s := Table(order), c + "\n" + r;
    TableAt(order, 0);
    TableAt(order, 1);
    assert s[..|c|] == c;
    PatternClosed(CommentText, c);
    assert Fits(table, COMMENT, s, |c|, 1);
    var n;
    n, i := BestExists(table, COMMENT, s, |c|, 1);
    if n > |c| {
      var x := s[..n];
      assert x[|c|] == '\n' && x[..|c|] == c;
      assert forall k | 0 <= k < |c| :: c[k] in x;
      AcrossNewline(table[i], x);
    }
    TableAt(order, i);
  }

  /** A blank comment line is taken together with its newline. */
  lemma BlankLineLexeme(order: seq<string>, c: string, r: string) returns (n: nat, i: nat)
    requires c != [] && AllBlank(c)
    ensures n > |c| && IsBest(Table(order), COMMENT, c + "\n" + r, n, i) && Table(order)[i] == Blanks
  {
    var table, s := Table(order), c + "\n" + r;
    TableAt(order, 3);
    assert s[..|c| + 1] == c + "\n";
    PatternClosed(Blanks, c + "\n");
    assert Fits(table, COMMENT, s, |c| + 1, 3);
    n, i := BestExists(table, COMMENT, s, |c| + 1, 3);
    var x := s[..n];
    assert x[|c|] == '\n' && x[0] == c[0] && c[0] in c;
    TableAt(order, i);
    AcrossNewline(table[i], x);
  }

  lemma CrossingLexeme(order: seq<string>, c: string, r: string) returns (n: nat, i: nat)
    requires StringCrosses(c, r) && c != [] && !AllBlank(c)
    ensures n > |c| && IsBest(Table(order), COMMENT, c + "\n" + r, n, i) && Table(order)[i] == StringBody
  {
    var table, s := Table(order), c + "\n" + r;
    var m: nat :| |c| < m <= |c| + 1 + |r| && Shape(StringBody, s[..m]);
    var k := 4 + |order| + 11;
    TableAt(order, k);
    PatternClosed(StringBody, s[..m]);
    assert Fits(table, COMMENT, s, m, k);
    n, i := BestExists(table, COMMENT, s, m, k);
    var x := s[..n];
    assert x[|c|] == '\n' && x[..|c|] == c;
    assert forall a | 0 <= a < |c| :: c[a] in x;
    TableAt(order, i);
    AcrossNewline(table[i], x);
  }

  /** A string that runs across the newline is a token. */
  lemma CrossingState(order: seq<string>, c: string, r: string, k: nat)
    requires Total(Table(order)) && StringCrosses(c, r) && c != [] && !AllBlank(c) && k > 0
    ensures StateAt(Table(order), COMMENT, c + "\n" + r, |c| + k) == None
  {
    var n, i := CrossingLexeme(order, c, r);
    StateMoves(Table(order), COMMENT, c + "\n" + r, |c| + k, n, i);
  }

  lemma LineState(order: seq<string>, c: string, r: string, k: nat)
    requires Total(Table(order)) && c != [] && '\n' !in c && !AllBlank(c) && !StringCrosses(c, r) && k > 0
    ensures StateAt(Table(order), COMMENT, c + "\n" + r, |c| + k) == StateAt(Table(order), COMMENT, "\n" + r, k)
  {
    hide StateAt, Total, StringCrosses, AllBlank, IsBest, Table;
    var i := LineLexeme(order, c, r);
    StateMoves(Table(order), COMMENT, c + "\n" + r, |c| + k, |c|, i);
    assert (c + "\n" + r)[|c|..] == "\n" + r;
  }

  /** Behind the dashes. */
  lemma CommentBody(order: seq<string>, c: string, r: string)
    requires Total(Table(order)) && '\n' !in c
    ensures StateAt(Table(order), COMMENT, c + "\n" + r, |c| + 1) == Some(INITIAL) <==> Resumes(c, r)
  {
    var table, s, k := Table(order), c + "\n" + r, |c| + 1;
    if c == [] {
      assert s == "\n" + r;
      EmptyBody(order, r);
      OnlyQuotesCross(c, r);
    } else if AllBlank(c) {
      var n, i := BlankLineLexeme(order, c, r);
      StateMoves(table, COMMENT, s, k, n, i);
    } else if StringCrosses(c, r) {
      CrossingState(order, c, r, 1);
    } else {
      LineState(order, c, r, 1);
      EmptyBody(order, r);
    }
  }

  /** Only a comment that begins with a single quote can run into the next line as a string. */
  lemma OnlyQuotesCross(c: string, r: string)
    requires c == [] || c[0] != '\''
    ensures !StringCrosses(c, r)
  {
    forall m: nat | |c| < m <= |c| + 1 + |r| ensures !Shape(StringBody, (c + "\n" + r)[..m]) {
      assert (c + "\n" + r)[..m][0] == if c == [] then '\n' else c[0];
    }
  }

  lemma EmptyBody(order: seq<string>, r: string)
    requires Total(Table(order))
    ensures StateAt(Table(order), COMMENT, "\n" + r, 1) == Some(INITIAL) <==> (r != [] ==> !IsBlankChar(r[0]))
  {
    var table, s := Table(order), "\n" + r;
    NewlineLexeme(order, r);
    TableAt(order, 2);
    if r != [] && IsBlankChar(r[0]) {
      var n: nat, i: nat :| n >= 2 && IsBest(table, COMMENT, s, n, i);
      StateMoves(table, COMMENT, s, 1, n, i);
    } else {
      StateMoves(table, COMMENT, s, 1, 1, 2);
    }
  }

  lemma DashesState(order: seq<string>, body: string, k: nat)
    requires Total(Table(order)) && k > 0
    ensures StateAt(Table(order), INITIAL, "--" + body, 2 + k) == StateAt(Table(order), COMMENT, body, k)
  {
    hide IsBest, Total, StateAt;
    DashesLexeme(order, body);
    TableAt(order, 0);
    StateMoves(Table(order), INITIAL, "--" + body, 2 + k, 2, 0);
    assert ("--" + body)[2..] == body;
  }

  /** A comment ends exactly at its newline, in the initial state and without a token, if and only
      if it resumes. */
  lemma CommentEndsIffResumes(order: seq<string>, c: string, r: string)
    requires Total(Table(order)) && '\n' !in c
    ensures StateAt(Table(order), INITIAL, "--" + c + "\n" + r, |c| + 3) == Some(INITIAL) <==> Resumes(c, r)
  {
    hide StateAt, Total, Table, Resumes;
    assert "--" + c + "\n" + r == "--" + (c + "\n" + r);
    DashesState(order, c + "\n" + r, |c| + 1);
    CommentBody(order, c, r);
  }

  /** Then the comment is invisible. */
  lemma CommentIsSkipped(order: seq<string>, c: string, r: string)
    requires Total(Table(order)) && '\n' !in c && Resumes(c, r)
    ensures Lex(Table(order), INITIAL, "--" + c + "\n" + r) == Lex(Table(order), INITIAL, r)
  {
    var s := "--" + c + "\n" + r;
    CommentEndsIffResumes(order, c, r);
    SilentPrefix(Table(order), INITIAL, s, |c| + 3);
    assert s[|c| + 3..] == r;
  }

  /** An ordinary comment followed by an unindented line resumes. */
  lemma OrdinaryCommentResumes(c: string, r: string)
    requires c == [] || (!AllBlank(c) && c[0] != '\'')
    requires r == [] || !IsBlankChar(r[0])
    ensures Resumes(c, r)
  {
    OnlyQuotesCross(c, r);
  }

  // ----- an indented line behind a comment -----

  /** The newline and the indent behind it are one lexeme, which does not end the comment. */
  lemma IndentLexeme(order: seq<string>, bs: string, q: string)
    requires bs != [] && AllBlank(bs) && (q != [] ==> !IsBlankChar(q[0]))
    ensures IsBest(Table(order), COMMENT, "\n" + (bs + q), 1 + |bs|, 3)
  {
    var table, s := Table(order), "\n" + (bs + q);
    TableAt(order, 3);
    assert s[..1 + |bs|] == "\n" + bs;
    PatternClosed(Blanks, "\n" + bs);
    forall m: nat, j: nat | Fits(table, COMMENT, s, m, j)
      ensures m <= 1 + |bs| && (m == 1 + |bs| ==> 3 <= j)
    {
      var x := s[..m];
      TableAt(order, j);
      assert x[0] == '\n' && x[0] in x && (m > 1 + |bs| ==> x[1 + |bs|] == q[0] && x[1 + |bs|] in x);
      AcrossNewline(table[j], x);
    }
  }

  lemma BlankLinesJoin(c: string, bs: string)
    requires AllBlank(c) && AllBlank(bs)
    ensures AllBlank(c + "\n" + bs)
  {
    forall x | x in c + "\n" + bs ensures IsBlankChar(x) {
      assert x in c || x == '\n' || x in bs;
    }
  }

  /** A blank comment line is taken together with its newline and the indent. */
  lemma BlankIndentLexeme(order: seq<string>, c: string, bs: string, q: string)
    requires c != [] && AllBlank(c) && bs != [] && AllBlank(bs) && (q != [] ==> !IsBlankChar(q[0]))
    ensures IsBest(Table(order), COMMENT, c + "\n" + (bs + q), |c| + 1 + |bs|, 3)
  {
    var table, s := Table(order), c + "\n" + (bs + q);
    var w := c + "\n" + bs;
    TableAt(order, 3);
    assert s[..|w|] == w;
    BlankLinesJoin(c, bs);
    PatternClosed(Blanks, w);
    forall m: nat, j: nat | Fits(table, COMMENT, s, m, j)
      ensures m <= |w| && (m == |w| ==> 3 <= j)
    {
      var x := s[..m];
      TableAt(order, j);
      if m >= |w| {
        assert x[0] == c[0] && c[0] in c && x[|c|] == '\n' && x[|c|] in x;
        assert m > |w| ==> x[|w|] == q[0] && x[|w|] in x;
        AcrossNewline(table[j], x);
      }
    }
  }

  lemma IndentedBody(order: seq<string>, c: string, bs: string, q: string)
    requires Total(Table(order)) && '\n' !in c
    requires bs != [] && AllBlank(bs) && (q != [] ==> !IsBlankChar(q[0]))
    ensures StateAt(Table(order), COMMENT, c + "\n" + (bs + q), |c| + 1 + |bs|) == Some(COMMENT)
       <==> !StringCrosses(c, bs + q)
  {
    hide StringCrosses;
    var r := bs + q;
    hide StateAt, Total, Table;
    if c == [] {
      assert c + "\n" + r == "\n" + r;
      IndentState(order, bs, q);
      OnlyQuotesCross(c, r);
    } else if AllBlank(c) {
      BlankIndentState(order, c, bs, q);
      assert c[0] in c;
      OnlyQuotesCross(c, r);
    } else if StringCrosses(c, r) {
      CrossingState(order, c, r, 1 + |bs|);
    } else {
      LineState(order, c, r, 1 + |bs|);
      IndentState(order, bs, q);
    }
  }

  lemma BlankIndentState(order: seq<string>, c: string, bs: string, q: string)
    requires Total(Table(order)) && c != [] && AllBlank(c)
    requires bs != [] && AllBlank(bs) && (q != [] ==> !IsBlankChar(q[0]))
    ensures StateAt(Table(order), COMMENT, c + "\n" + (bs + q), |c| + 1 + |bs|) == Some(COMMENT)
  {
    hide IsBest, Total;
    var k := |c| + 1 + |bs|;
    BlankIndentLexeme(order, c, bs, q);
    TableAt(order, 3);
    StateMoves(Table(order), COMMENT, c + "\n" + (bs + q), k, k, 3);
  }

  lemma IndentState(order: seq<string>, bs: string, q: string)
    requires Total(Table(order)) && bs != [] && AllBlank(bs) && (q != [] ==> !IsBlankChar(q[0]))
    ensures StateAt(Table(order), COMMENT, "\n" + (bs + q), 1 + |bs|) == Some(COMMENT)
  {
    IndentLexeme(order, bs, q);
    TableAt(order, 3);
    StateMoves(Table(order), COMMENT, "\n" + (bs + q), 1 + |bs|, 1 + |bs|, 3);
  }

  /** Behind a comment line and any run of blanks at the start of the next line the scanner is still
      in COMMENT, unless a string runs across the newline. */
  lemma IndentKeepsComment(order: seq<string>, c: string, bs: string, q: string)
    requires Total(Table(order)) && '\n' !in c
    requires bs != [] && AllBlank(bs) && (q != [] ==> !IsBlankChar(q[0]))
    ensures StateAt(Table(order), INITIAL, "--" + c + "\n" + (bs + q), |c| + 3 + |bs|) == Some(COMMENT)
       <==> !StringCrosses(c, bs + q)
  {
    hide StateAt, Total, Table, StringCrosses;
    var r := bs + q;
    assert "--" + c + "\n" + r == "--" + (c + "\n" + r);
    DashesState(order, c + "\n" + r, |c| + 1 + |bs|);
    IndentedBody(order, c, bs, q);
  }

  /** So an indented line behind a comment is scanned as a comment line, whatever it says. */
  lemma IndentedTextIsComment(order: seq<string>, c: string, bs: string, q: string)
    requires Total(Table(order)) && '\n' !in c && !StringCrosses(c, bs + q)
    requires bs != [] && AllBlank(bs) && (q != [] ==> !IsBlankChar(q[0]))
    ensures Lex(Table(order), INITIAL, "--" + c + "\n" + (bs + q)) == Lex(Table(order), COMMENT, q)
  {
    hide StateAt, Total, StringCrosses;
    var s := "--" + c + "\n" + (bs + q);
    IndentKeepsComment(order, c, bs, q);
    SilentPrefix(Table(order), INITIAL, s, |c| + 3 + |bs|);
    assert s[|c| + 3 + |bs|..] == q;
  }

  /** No token comes of an indented line, and the scanner goes on behind it if that line resumes. */
  lemma IndentedLineIsLost(order: seq<string>, c: string, bs: string, q: string, r: string)
    requires Total(Table(order)) && '\n' !in c && !StringCrosses(c, bs + (q + "\n" + r))
    requires bs != [] && AllBlank(bs) && q != [] && !IsBlankChar(q[0]) && '\n' !in q && Resumes(q, r)
    ensures Lex(Table(order), INITIAL, "--" + c + "\n" + (bs + (q + "\n" + r))) == Lex(Table(order), INITIAL, r)
  {
    var line := q + "\n" + r;
    IndentedTextIsComment(order, c, bs, line);
    CommentBody(order, q, r);
    SilentPrefix(Table(order), COMMENT, line, |q| + 1);
    assert line[|q| + 1..] == r;
  }

  /** At the end of the text nothing is left. */
  lemma LastIndentedLineIsLost(order: seq<string>, c: string, bs: string, q: string)
    requires Total(Table(order)) && '\n' !in c && !StringCrosses(c, bs + q)
    requires bs != [] && AllBlank(bs) && (q != [] ==> !IsBlankChar(q[0])) && '\n' !in q
    ensures Lex(Table(order), INITIAL, "--" + c + "\n" + (bs + q)) == Nil
  {
    IndentedTextIsComment(order, c, bs, q);
    if q != [] {
      var j := LastLineLexeme(order, q);
      LexMoves(Table(order), COMMENT, q, |q|, j);
      assert q[|q|..] == [];
    }
  }

  lemma LastLineLexeme(order: seq<string>, q: string) returns (i: nat)
    requires q != [] && '\n' !in q
    ensures IsBest(Table(order), COMMENT, q, |q|, i) && (Table(order)[i] == CommentText || Table(order)[i] == Dashes)
  {
    var table := Table(order);
    TableAt(order, 1);
    assert q[..|q|] == q;
    PatternClosed(CommentText, q);
    assert Fits(table, COMMENT, q, |q|, 1);
    var n;
    n, i := BestExists(table, COMMENT, q, |q|, 1);
    TableAt(order, i);
  }
}
