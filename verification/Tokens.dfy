/**
 The vocabulary shared by the lexer and the parser: the keywords of the rule file, the tokens
 with their semantic values, and the two list shapes used in specifications.
 */
module Tokens {

  /** The keyword tokens (src/parser/bison_parser.y:163-180). Those that the expression grammar
      mentions have a name here; `Reserved` carries the spelling of any other one. */
  datatype Keyword =
    | RECURSIVE | DISTINCT | BETWEEN | NOTNULL | REPLACE | EXISTS | ISNULL | CASE | ELSE
    | JOIN | LIKE | NULL | TEMP | TEXT | THEN | WHEN | AND | END | KEY | NOT | AS | IN | IS | ON | OR
    | Reserved(spelling: string)

  /** A token with its semantic value. Number tokens keep their text. `Sym` is a one-character
      token, returned as its own code. `SubQuery` stands for one already reduced
      `select_no_paren`: nested selects are opaque to the expression grammar. */
  datatype Token =
    | Ident(name: string)
    | Str(body: string)
    | Float(text: string)
    | Int(text: string)
    | Kw(word: Keyword)
    | Sym(code: char)
    | NotEquals | LessEq | GreaterEq | Concat
    | SubQuery(id: nat)

  datatype Option<+T> = None | Some(value: T)

  /** The pending input of the parser. `Nil` is the end-of-file token. */
  datatype List<+T> = Nil | Cons(head: T, tail: List<T>) {
    function Size(): nat {
      match this
      case Nil => 0
      case Cons(_, rest) => 1 + rest.Size()
    }
  }

  function FromSeq<T>(s: seq<T>): (l: List<T>)
    ensures l.Size() == |s|
  {
    if s == [] then Nil else Cons(s[0], FromSeq(s[1..]))
  }

  function Append<T>(a: List<T>, b: List<T>): List<T> {
    match a
    case Nil => b
    case Cons(x, rest) => Cons(x, Append(rest, b))
  }

  lemma {:induction false} AppendNil<T>(a: List<T>)
    ensures Append(a, Nil) == a
  {
    if a.Cons? {
      AppendNil(a.tail);
    }
  }
}
