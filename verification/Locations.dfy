/**
 The location record that every match updates, character by character, and the position of a
 prefix that it stands for.
 */
module Locations {

  /** Newlines in `s`. */
  function Newlines(s: string): nat {
    if s == [] then 0 else Newlines(s[..|s| - 1]) + if s[|s| - 1] == '\n' then 1 else 0
  }

  /** Characters behind the last newline of `s`. */
  function Column(s: string): nat {
    if s == [] || s[|s| - 1] == '\n' then 0 else Column(s[..|s| - 1]) + 1
  }

  lemma AppendedCount(s: string, x: char)
    ensures multiset(s + [x])['\n'] == multiset(s)['\n'] + if x == '\n' then 1 else 0
  {
    assert multiset(s + [x]) == multiset(s) + multiset{x};
  }

  lemma AppendedTail(s: string, x: char, k: nat)
    requires k <= |s|
    ensures (s + [x])[|s| - k..] == s[|s| - k..] + [x]
  {}

  lemma LastChar(s: string) returns (init: string, x: char)
    requires s != []
    ensures s == init + [x] && init == s[..|s| - 1] && x == s[|s| - 1]
  {
    init, x := s[..|s| - 1], s[|s| - 1];
  }

  lemma {:induction false} NewlinesCounts(s: string)
    ensures Newlines(s) == multiset(s)['\n']
  {
    if s != [] {
      var init, x := LastChar(s);
      NewlinesCounts(init);
      AppendedCount(init, x);
    }
  }

  lemma {:induction false} ColumnIsBounded(s: string)
    ensures Column(s) <= |s| && (Column(s) < |s| ==> s[|s| - Column(s) - 1] == '\n')
  {
    if s != [] {
      ColumnIsBounded(s[..|s| - 1]);
    }
  }

  lemma {:induction false} ColumnHasNoNewline(s: string)
    ensures Column(s) <= |s| && '\n' !in s[|s| - Column(s)..]
  {
    ColumnIsBounded(s);
    if s != [] {
      var init, x := LastChar(s);
      if x != '\n' {
        ColumnIsBounded(init);
        ColumnHasNoNewline(init);
        AppendedTail(init, x, Column(init));
      }
    }
  }

  /** `Newlines` counts, and `Column` measures back to the last newline. */
  lemma PositionIsCount(s: string)
    ensures Newlines(s) == multiset(s)['\n']
    ensures Column(s) <= |s| && '\n' !in s[|s| - Column(s)..]
    ensures Column(s) < |s| ==> s[|s| - Column(s) - 1] == '\n'
  {
    hide Newlines, Column;
    NewlinesCounts(s);
    ColumnIsBounded(s);
    ColumnHasNoNewline(s);
  }

  /** HSQL_LTYPE (src/parser/parser_typedef.h:17-31), without the parameter list. */
  class Location {
    var firstLine: int
    var firstColumn: int
    var lastLine: int
    var lastColumn: int
    var totalColumn: int
    var stringLength: int

    /** The state set by the parser's initial action. */
    constructor ()
      ensures At("") && stringLength == 0 && firstLine == 0 && firstColumn == 0
    {
      firstLine, firstColumn, lastLine, lastColumn, totalColumn, stringLength := 0, 0, 0, 0, 0, 0;
    }

    /** The record stands behind the prefix `read` of the input. */
    ghost predicate At(read: string)
      reads this
    {
      lastLine == Newlines(read) && lastColumn == Column(read) && totalColumn == |read|
    }

    /** The user action of the scanner, run for each match. */
    method UserAction(yytext: string, ghost read: string)
      requires At(read)
      modifies this
      ensures At(read + yytext)
      ensures firstLine == Newlines(read) && firstColumn == Column(read)
      ensures stringLength == old(stringLength) + |yytext|
    {
      firstLine := lastLine;
      firstColumn := lastColumn;
      var i := 0;
      assert read + yytext[..0] == read;
      while i < |yytext|
        invariant 0 <= i <= |yytext|
        invariant At(read + yytext[..i])
        invariant firstLine == Newlines(read) && firstColumn == Column(read)
        invariant stringLength == old(stringLength) + i
      {
        assert (read + yytext[..i + 1])[..|read| + i] == read + yytext[..i];
        totalColumn := totalColumn + 1;
        stringLength := stringLength + 1;
        if yytext[i] == '\n' {
          lastLine := lastLine + 1;
          lastColumn := 0;
        } else {
          lastColumn := lastColumn + 1;
        }
        i := i + 1;
      }
      assert yytext[..i] == yytext;
    }
  }
}
