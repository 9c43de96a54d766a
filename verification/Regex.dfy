/**
 Regular expressions as flex reads them, their languages, and derivatives: the left quotient of a
 pattern by one character, from which a scanner can be run without a table.
 */
module Regex {

  /** A character class of the pattern language. */
  datatype Class =
    | One(c: char)
    | AnyCase(upper: char)
    | Among(chars: string)
    | Except(chars: string)
    | Letter
    | Digit
    | WordChar
  {
    predicate Has(x: char) {
      match this
      case One(c) => x == c
      case AnyCase(u) => (IsLetter(x) || x == '_') && Upper(x) == u
      case Among(cs) => x in cs
      case Except(cs) => x !in cs
      case Letter => IsLetter(x)
      case Digit => IsDigit(x)
      case WordChar => IsLetter(x) || IsDigit(x) || x == '_'
    }
  }

  predicate IsLetter(x: char) {
    'a' <= x <= 'z' || 'A' <= x <= 'Z'
  }

  predicate IsDigit(x: char) {
    '0' <= x <= '9'
  }

  function Upper(x: char): char {
    if 'a' <= x <= 'z' then ((x as int) - 32) as char else x
  }

  datatype Re =
    | Void
    | Empty
    | Char(class_: Class)
    | Cat(first: Re, second: Re)
    | Alt(left: Re, right: Re)
    | Star(body: Re)

  function Plus(r: Re): Re {
    Cat(r, Star(r))
  }

  function Maybe(r: Re): Re {
    Alt(Empty, r)
  }

  /** The language of a pattern. */
  ghost predicate Matches(r: Re, s: string)
    decreases r, |s|
  {
    match r
    case Void => false
    case Empty => s == []
    case Char(k) => |s| == 1 && k.Has(s[0])
    case Cat(a, b) => exists i | 0 <= i <= |s| :: Matches(a, s[..i]) && Matches(b, s[i..])
    case Alt(a, b) => Matches(a, s) || Matches(b, s)
    case Star(a) => s == [] || exists i | 0 < i <= |s| :: Matches(a, s[..i]) && Matches(r, s[i..])
  }

  predicate Nullable(r: Re) {
    match r
    case Void => false
    case Empty => true
    case Char(_) => false
    case Cat(a, b) => Nullable(a) && Nullable(b)
    case Alt(a, b) => Nullable(a) || Nullable(b)
    case Star(_) => true
  }

  function Derive(r: Re, x: char): Re {
    match r
    case Void => Void
    case Empty => Void
    case Char(k) => if k.Has(x) then Empty else Void
    case Cat(a, b) =>
      if Nullable(a) then Alt(Cat(Derive(a, x), b), Derive(b, x)) else Cat(Derive(a, x), b)
    case Alt(a, b) => Alt(Derive(a, x), Derive(b, x))
    case Star(a) => Cat(Derive(a, x), r)
  }

  /** A syntactic check that no string can match any more: the scanner is jammed. */
  predicate Jammed(r: Re) {
    match r
    case Void => true
    case Cat(a, b) => Jammed(a) || Jammed(b)
    case Alt(a, b) => Jammed(a) && Jammed(b)
    case _ => false
  }

  lemma {:induction false} NullableIsEmptyMatch(r: Re)
    ensures Nullable(r) <==> Matches(r, [])
  {
    match r
    case Cat(a, b) =>
      NullableIsEmptyMatch(a);
      NullableIsEmptyMatch(b);
      var e: string := [];
      assert e[..0] == [] && e[0..] == [];
    case Alt(a, b) =>
      NullableIsEmptyMatch(a);
      NullableIsEmptyMatch(b);
    case _ =>
  }

  lemma {:induction false} JammedMatchesNothing(r: Re, s: string)
    requires Jammed(r)
    ensures !Matches(r, s)
  {
    match r
    case Cat(a, b) =>
      forall i | 0 <= i <= |s| ensures !(Matches(a, s[..i]) && Matches(b, s[i..])) {
        if Jammed(a) { JammedMatchesNothing(a, s[..i]); } else { JammedMatchesNothing(b, s[i..]); }
      }
    case Alt(a, b) =>
      JammedMatchesNothing(a, s);
      JammedMatchesNothing(b, s);
    case _ =>
  }

  lemma CatIntro(a: Re, b: Re, s: string, i: nat)
    requires i <= |s| && Matches(a, s[..i]) && Matches(b, s[i..])
    ensures Matches(Cat(a, b), s)
  {}

  lemma CatSplit(a: Re, b: Re, s: string) returns (i: nat)
    requires Matches(Cat(a, b), s)
    ensures i <= |s| && Matches(a, s[..i]) && Matches(b, s[i..])
  {
    i :| 0 <= i <= |s| && Matches(a, s[..i]) && Matches(b, s[i..]);
  }

  /** The derivative by `x` matches exactly the rests of the matches that begin with `x`. */
  lemma {:induction false} DeriveIsQuotient(r: Re, x: char, s: string)
    ensures Matches(Derive(r, x), s) <==> Matches(r, [x] + s)
    decreases r, |s|
  {
    var w := [x] + s;
    match r
    case Void =>
    case Empty =>
    case Char(_) =>
    case Alt(a, b) =>
      DeriveIsQuotient(a, x, s);
      DeriveIsQuotient(b, x, s);
    case Cat(a, b) =>
      NullableIsEmptyMatch(a);
      DeriveIsQuotient(b, x, s);
      CatQuotient(a, b, x, s);
      if Matches(a, []) && Matches(b, w) {
        assert w[..0] == [] && w[0..] == w;
        CatIntro(a, b, w, 0);
      }
    case Star(a) =>
      forall i | 0 <= i <= |s|
        ensures Matches(Derive(a, x), s[..i]) <==> Matches(a, w[..i + 1])
        ensures w[i + 1..] == s[i..]
      {
        DeriveIsQuotient(a, x, s[..i]);
        assert w[..i + 1] == [x] + s[..i];
      }
      StarQuotient(a, x, s);
  }

  /** The part of a concatenation in which the first factor is not empty. */
  lemma {:induction false} CatQuotient(a: Re, b: Re, x: char, s: string)
    ensures Matches(Cat(Derive(a, x), b), s) ==> Matches(Cat(a, b), [x] + s)
    ensures Matches(Cat(a, b), [x] + s) ==> Matches(Cat(Derive(a, x), b), s) || (Matches(a, []) && Matches(b, [x] + s))
    decreases a, |s| + 1
  {
    var w := [x] + s;
    if Matches(Cat(Derive(a, x), b), s) {
      var i := CatSplit(Derive(a, x), b, s);
      DeriveIsQuotient(a, x, s[..i]);
      assert w[..i + 1] == [x] + s[..i] && w[i + 1..] == s[i..];
      CatIntro(a, b, w, i + 1);
    }
    if Matches(Cat(a, b), w) {
      var j := CatSplit(a, b, w);
      if j > 0 {
        var i: nat := j - 1;
        DeriveIsQuotient(a, x, s[..i]);
        assert w[..j] == [x] + s[..i] && w[j..] == s[i..];
        CatIntro(Derive(a, x), b, s, i);
      } else {
        assert w[..0] == [] && w[0..] == w;
      }
    }
  }

  lemma StarQuotient(a: Re, x: char, s: string)
    requires forall i | 0 <= i <= |s| :: Matches(Derive(a, x), s[..i]) <==> Matches(a, ([x] + s)[..i + 1])
    requires forall i | 0 <= i <= |s| :: ([x] + s)[i + 1..] == s[i..]
    ensures Matches(Derive(Star(a), x), s) <==> Matches(Star(a), [x] + s)
  {
    var w := [x] + s;
    if Matches(Derive(Star(a), x), s) {
      var i :| 0 <= i <= |s| && Matches(Derive(a, x), s[..i]) && Matches(Star(a), s[i..]);
      assert Matches(a, w[..i + 1]) && Matches(Star(a), w[i + 1..]);
    }
    if Matches(Star(a), w) {
      var j :| 0 < j <= |w| && Matches(a, w[..j]) && Matches(Star(a), w[j..]);
      assert Matches(Derive(a, x), s[..j - 1]) && Matches(Star(a), s[j - 1..]);
    }
  }

  // ----- closed forms -----

  lemma CharClosed(k: Class, s: string)
    ensures Matches(Char(k), s) <==> |s| == 1 && k.Has(s[0])
  {}

  /** A pattern whose first part is one character. */
  lemma CatCharClosed(k: Class, r: Re, s: string)
    ensures Matches(Cat(Char(k), r), s) <==> |s| > 0 && k.Has(s[0]) && Matches(r, s[1..])
  {
    if |s| > 0 && k.Has(s[0]) && Matches(r, s[1..]) {
      assert Matches(Char(k), s[..1]);
    }
    if Matches(Cat(Char(k), r), s) {
      var i :| 0 <= i <= |s| && Matches(Char(k), s[..i]) && Matches(r, s[i..]);
      assert i == 1;
    }
  }

  lemma {:induction false} StarCharClosed(k: Class, s: string)
    ensures Matches(Star(Char(k)), s) <==> forall x | x in s :: k.Has(x)
    decreases |s|
  {
    var r := Star(Char(k));
    if s != [] {
      StarCharClosed(k, s[1..]);
      assert s == [s[0]] + s[1..];
      if forall x | x in s :: k.Has(x) {
        assert Matches(Char(k), s[..1]) && Matches(r, s[1..]);
      }
      if Matches(r, s) {
        var i :| 0 < i <= |s| && Matches(Char(k), s[..i]) && Matches(r, s[i..]);
        assert i == 1;
      }
    }
  }

  /** True when no character class of the pattern contains `x`. */
  predicate Avoids(r: Re, x: char) {
    match r
    case Char(k) => !k.Has(x)
    case Cat(a, b) => Avoids(a, x) && Avoids(b, x)
    case Alt(a, b) => Avoids(a, x) && Avoids(b, x)
    case Star(a) => Avoids(a, x)
    case _ => true
  }

  lemma {:induction false} AvoidedIsAbsent(r: Re, x: char, s: string)
    requires Avoids(r, x) && Matches(r, s)
    ensures x !in s
    decreases r, |s|
  {
    match r
    case Cat(a, b) =>
      var i :| 0 <= i <= |s| && Matches(a, s[..i]) && Matches(b, s[i..]);
      AvoidedIsAbsent(a, x, s[..i]);
      AvoidedIsAbsent(b, x, s[i..]);
      assert s == s[..i] + s[i..];
    case Alt(a, b) =>
      if Matches(a, s) { AvoidedIsAbsent(a, x, s); } else { AvoidedIsAbsent(b, x, s); }
    case Star(a) =>
      if s != [] {
        var i :| 0 < i <= |s| && Matches(a, s[..i]) && Matches(r, s[i..]);
        AvoidedIsAbsent(a, x, s[..i]);
        AvoidedIsAbsent(r, x, s[i..]);
        assert s == s[..i] + s[i..];
      }
    case _ =>
  }
}
