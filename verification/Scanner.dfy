/**
 The scanner: a loop that keeps the derivatives of all active rules, remembers the last position
 at which one of them accepted, and stops when all are jammed.
 */
module Scanner {
  import opened Tokens
  import opened Regex
  import opened Rules
  import opened Lexing
  import opened Lexemes
  import opened Locations

  /** `now` is what remains of `whole` after `read`. */
  ghost predicate Residual(now: Re, whole: Re, read: string) {
    forall s :: Matches(now, s) <==> Matches(whole, read + s)
  }

  lemma ResidualSteps(now: Re, whole: Re, read: string, x: char)
    requires Residual(now, whole, read)
    ensures Residual(Derive(now, x), whole, read + [x])
  {
    forall s ensures Matches(Derive(now, x), s) <==> Matches(whole, read + [x] + s) {
      DeriveIsQuotient(now, x, s);
      assert read + ([x] + s) == read + [x] + s;
    }
  }

  lemma ResidualAccepts(now: Re, whole: Re, read: string)
    requires Residual(now, whole, read)
    ensures Nullable(now) <==> Matches(whole, read)
  {
    NullableIsEmptyMatch(now);
    assert read + [] == read;
  }

  lemma ResidualJams(now: Re, whole: Re, read: string, longer: string)
    requires Residual(now, whole, read) && Jammed(now) && read <= longer
    ensures !Matches(whole, longer)
  {
    JammedMatchesNothing(now, longer[|read|..]);
    assert longer == read + longer[|read|..];
  }

  /** The pattern a rule runs with; an inactive rule matches nothing. */
  function Running(r: Rule, start: Start): Re {
    if Active(r, start) then Pattern(r) else Void
  }

  /** The index of the first accepting pattern, or the length if there is none. */
  method FirstNullable(rs: seq<Re>) returns (i: nat)
    ensures i <= |rs| && (i < |rs| ==> Nullable(rs[i]))
    ensures forall j | 0 <= j < i :: !Nullable(rs[j])
  {
    i := 0;
    while i < |rs| && !Nullable(rs[i])
      invariant 0 <= i <= |rs|
      invariant forall j | 0 <= j < i :: !Nullable(rs[j])
    {
      i := i + 1;
    }
  }

  method AllJammed(rs: seq<Re>) returns (all: bool)
    ensures all <==> forall j | 0 <= j < |rs| :: Jammed(rs[j])
  {
    var i := 0;
    while i < |rs| && Jammed(rs[i])
      invariant 0 <= i <= |rs|
      invariant forall j | 0 <= j < i :: Jammed(rs[j])
    {
      i := i + 1;
    }
    all := i == |rs|;
  }

  /** The best match among lengths up to `k`, or 0 when there is none. */
  ghost predicate BestUpTo(table: seq<Rule>, start: Start, s: string, k: nat, n: nat, i: nat) {
    && (n > 0 ==> n <= k && Fits(table, start, s, n, i))
    && forall m: nat, j: nat :: m <= k && Fits(table, start, s, m, j) ==> m < n || (m == n && i <= j)
  }

  ghost predicate AllResidual(rs: seq<Re>, table: seq<Rule>, start: Start, read: string) {
    |rs| == |table| && forall j | 0 <= j < |table| :: Residual(rs[j], Running(table[j], start), read)
  }

  lemma AllResidualSteps(rs: seq<Re>, table: seq<Rule>, start: Start, read: string, x: char)
    requires AllResidual(rs, table, start, read)
    ensures AllResidual(seq(|rs|, j requires 0 <= j < |rs| => Derive(rs[j], x)), table, start, read + [x])
  {
    forall j | 0 <= j < |table| {
      ResidualSteps(rs[j], Running(table[j], start), read, x);
    }
  }

  /** The character at `k` was read: the longest match so far is replaced if some rule accepts. */
  lemma BestGrows(rs: seq<Re>, table: seq<Rule>, start: Start, s: string, k: nat, n: nat, i: nat, f: nat)
    requires k < |s| && BestUpTo(table, start, s, k, n, i) && AllResidual(rs, table, start, s[..k + 1])
    requires f <= |rs| && (f < |rs| ==> Nullable(rs[f])) && forall j | 0 <= j < f :: !Nullable(rs[j])
    ensures if f < |rs| then BestUpTo(table, start, s, k + 1, k + 1, f) else BestUpTo(table, start, s, k + 1, n, i)
  {
    forall j: nat | j < |table|
      ensures Fits(table, start, s, k + 1, j) <==> Nullable(rs[j])
    {
      ResidualAccepts(rs[j], Running(table[j], start), s[..k + 1]);
    }
  }

  lemma JammedIsFinal(rs: seq<Re>, table: seq<Rule>, start: Start, s: string, k: nat, n: nat, i: nat)
    requires k <= |s| && BestUpTo(table, start, s, k, n, i) && AllResidual(rs, table, start, s[..k])
    requires k == |s| || forall j | 0 <= j < |rs| :: Jammed(rs[j])
    ensures BestUpTo(table, start, s, |s|, n, i)
  {
    forall m: nat, j: nat | k < m <= |s| && Fits(table, start, s, m, j)
      ensures false
    {
      assert s[..k] <= s[..m];
      ResidualJams(rs[j], Running(table[j], start), s[..k], s[..m]);
    }
  }

  lemma StartsResidual(rs: seq<Re>, table: seq<Rule>, start: Start)
    requires rs == seq(|table|, j requires 0 <= j < |table| => Running(table[j], start))
    ensures AllResidual(rs, table, start, "")
  {
    forall j, w | 0 <= j < |table| ensures Matches(rs[j], w) <==> Matches(Running(table[j], start), "" + w) {
      assert "" + w == w;
    }
  }

  lemma BestAtStart(table: seq<Rule>, start: Start, s: string)
    ensures BestUpTo(table, start, s, 0, 0, 0)
  {}

  lemma BestAtEnd(table: seq<Rule>, start: Start, s: string, n: nat, i: nat)
    requires Total(table) && s != [] && BestUpTo(table, start, s, |s|, n, i)
    ensures IsBest(table, start, s, n, i)
  {
    ghost var j := SomethingFits(table, start, s);
  }

  /** The table-free scanning loop: it remembers the last accepting position, and stops at the end of
      the text or when no rule can go on. */
  method LongestMatch(table: seq<Rule>, start: Start, s: string) returns (n: nat, i: nat)
    requires Total(table) && s != []
    ensures IsBest(table, start, s, n, i)
  {
    hide AllResidual, BestUpTo, IsBest, Total, Matches, Derive, Running, Jammed, Nullable;
    var rs := seq(|table|, j requires 0 <= j < |table| => Running(table[j], start));
    n, i := 0, 0;
    var k := 0;
    StartsResidual(rs, table, start);
    BestAtStart(table, start, s);
    assert s[..0] == "";
    var jammed := AllJammed(rs);
    while k < |s| && !jammed
      invariant 0 <= k <= |s|
      invariant AllResidual(rs, table, start, s[..k])
      invariant BestUpTo(table, start, s, k, n, i)
      invariant jammed <==> forall j | 0 <= j < |rs| :: Jammed(rs[j])
    {
      AllResidualSteps(rs, table, start, s[..k], s[k]);
      assert s[..k] + [s[k]] == s[..k + 1];
      rs := seq(|rs|, j requires 0 <= j < |rs| => Derive(rs[j], s[k]));
      var f := FirstNullable(rs);
      BestGrows(rs, table, start, s, k, n, i, f);
      k := k + 1;
      if f < |rs| {
        n, i := k, f;
      }
      jammed := AllJammed(rs);
    }
    JammedIsFinal(rs, table, start, s, k, n, i);
    BestAtEnd(table, start, s, n, i);
  }

  /** The scanner object: the text, its current position and start condition. */
  class Lexer {
    const table: seq<Rule>
    const text: string
    var pos: nat
    var start: Start

    ghost predicate Valid()
      reads this
    {
      Total(table) && pos <= |text|
    }

    constructor (order: seq<string>, text: string)
      ensures Valid() && table == Table(order) && this.text == text && pos == 0 && start == INITIAL
    {
      this.table := Table(order);
      this.text := text;
      pos, start := 0, INITIAL;
      TableIsTotal(order);
    }

    /** The tokens still to come. */
    ghost function Pending(): List<Token>
      requires Valid()
      reads this
    {
      Lex(table, start, text[pos..])
    }

    /** What the next call leaves. */
    ghost function Rest(): (string, Start)
      requires Valid()
      reads this
    {
      AfterToken(table, start, text[pos..])
    }

    /** Takes one lexeme and returns the action of its rule. */
    method Take(loc: Location) returns (action: Action, ghost i: nat)
      requires Valid() && loc.At(text[..pos]) && pos < |text|
      modifies this`pos, loc
      ensures Valid() && loc.At(text[..pos]) && pos > old(pos)
      ensures loc.stringLength == old(loc.stringLength) + pos - old(pos)
      ensures loc.firstLine == Newlines(text[..old(pos)]) && loc.firstColumn == Column(text[..old(pos)])
      ensures IsBest(table, start, text[old(pos)..], pos - old(pos), i) && action == Act(table[i], text[old(pos)..pos])
      ensures old(Pending()) == Continue(action) && old(Rest()) == RestOf(action)
    {
      hide Newlines, Column, Act, Matches;
      var rest := text[pos..];
      var n, j := LongestMatch(table, start, rest);
      i := j;
      var yytext := rest[..n];
      loc.UserAction(yytext, text[..pos]);
      LexMoves(table, start, rest, n, j);
      AfterTokenMoves(table, start, rest, n, j);
      assert text[..pos] + yytext == text[..pos + n] && rest[n..] == text[pos + n..] && yytext == text[pos..pos + n];
      pos := pos + n;
      action := Act(table[j], yytext);
    }

    /** The tokens still to come once `action` has been run. */
    ghost function Continue(action: Action): List<Token>
      requires Valid()
      reads this
    {
      match action
      case Emit(t) => Cons(t, Pending())
      case Skip => Pending()
      case Begin(s) => Lex(table, s, text[pos..])
      case Stop => Nil
    }

    /** What this call leaves once `action` has been run. */
    ghost function RestOf(action: Action): (string, Start)
      requires Valid()
      reads this
    {
      match action
      case Emit(_) => (text[pos..], start)
      case Skip => Rest()
      case Begin(s) => AfterToken(table, s, text[pos..])
      case Stop => (text[pos..], start)
    }

    /** The token of the last match has the matched text as a lexeme. */
    lemma EmittedByTable(from: nat, i: nat, t: Token)
      requires Valid() && from < pos && IsBest(table, start, text[from..], pos - from, i)
      requires Act(table[i], text[from..pos]) == Emit(t)
      ensures forall order | table == Table(order) :: IsLexeme(order, text[from..pos], t)
    {
      hide Table, IsLexeme, Matches, Act, Total;
      assert text[from..][..pos - from] == text[from..pos];
      forall order | table == Table(order) ensures IsLexeme(order, text[from..pos], t) {
        EmittedIsLexeme(order, start, text[from..], pos - from, i, t);
      }
    }

    /** Returns the next token, or None for end of file. `from` and `i` witness the match that
        produced the token: its span is where the location record points. */
    method Next(loc: Location) returns (t: Option<Token>, ghost from: nat, ghost i: nat)
      requires Valid() && loc.At(text[..pos])
      modifies this, loc
      ensures Valid() && loc.At(text[..pos]) && pos >= old(pos)
      ensures loc.stringLength == old(loc.stringLength) + pos - old(pos)
      ensures old(Pending()) == if t.Some? then Cons(t.value, Pending()) else Nil
      ensures (text[pos..], start) == old(Rest())
      ensures t.Some? ==>
                && old(pos) <= from < pos
                && IsBest(table, start, text[from..], pos - from, i)
                && Act(table[i], text[from..pos]) == Emit(t.value)
                && (forall order | table == Table(order) :: IsLexeme(order, text[from..pos], t.value))
                && loc.firstLine == Newlines(text[..from]) && loc.firstColumn == Column(text[..from])
      ensures t.None? ==>
                pos == |text| ||
                (old(pos) <= from < pos && IsBest(table, start, text[from..], pos - from, i) && table[i] == AnyChar)
    {
      hide Newlines, Column, IsLexeme, Matches, Pattern;
      t, from, i := None, 0, 0;
      while pos < |text|
        invariant Valid() && loc.At(text[..pos]) && pos >= old(pos)
        invariant Pending() == old(Pending()) && Rest() == old(Rest())
        invariant loc.stringLength == old(loc.stringLength) + pos - old(pos)
        decreases |text| - pos
      {
        from := pos;
        var action;
        action, i := Take(loc);
        match action
        case Emit(x) =>
          t := Some(x);
          EmittedByTable(from, i, x);
          return;
        case Skip =>
        case Begin(s) => start := s;
        case Stop => return;
      }
      assert text[pos..] == [];
    }
  }

  // ----- token lists built from the left -----

  ghost function Joined(s: seq<Token>, l: List<Token>): List<Token> {
    if s == [] then l else Cons(s[0], Joined(s[1..], l))
  }

  lemma {:induction false} JoinedSnoc(s: seq<Token>, t: Token, l: List<Token>)
    ensures Joined(s, Cons(t, l)) == Joined(s + [t], l)
  {
    if s != [] {
      JoinedSnoc(s[1..], t, l);
      assert (s + [t])[1..] == s[1..] + [t];
    } else {
      assert ([] + [t])[1..] == [];
    }
  }

  lemma {:induction false} JoinedNil(s: seq<Token>)
    ensures Joined(s, Nil) == FromSeq(s)
  {
    if s != [] {
      JoinedNil(s[1..]);
    }
  }
}
