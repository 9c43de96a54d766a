/**
 The precedence declarations of the grammar and bison's rule for a shift/reduce conflict.
 */
module Precedence {
  import opened Tokens

  datatype Assoc = LeftAssoc | RightAssoc | NonAssoc

  datatype Prec = Prec(level: nat, assoc: Assoc)

  datatype Verdict = Shift | Reduce | Error

  /** The declared precedence of a token, lowest level first. Only the tokens that the lexer can
      emit are listed: EQUALS, LESS, GREATER, ILIKE and UMINUS never reach the parser. */
  function TokenPrec(t: Token): Option<Prec> {
    match t
    case Kw(OR) => Some(Prec(1, LeftAssoc))
    case Kw(AND) => Some(Prec(2, LeftAssoc))
    case Kw(NOT) => Some(Prec(3, RightAssoc))
    case Kw(LIKE) => Some(Prec(4, NonAssoc))
    case NotEquals => Some(Prec(4, NonAssoc))
    case LessEq => Some(Prec(5, NonAssoc))
    case GreaterEq => Some(Prec(5, NonAssoc))
    case Kw(NOTNULL) => Some(Prec(6, NonAssoc))
    case Kw(ISNULL) => Some(Prec(7, NonAssoc))
    case Kw(IS) => Some(Prec(8, NonAssoc))
    case Concat => Some(Prec(12, LeftAssoc))
    case Kw(JOIN) => Some(Prec(17, LeftAssoc))
    case Sym(c) =>
      if c == '=' then Some(Prec(4, NonAssoc))
      else if c == '<' || c == '>' then Some(Prec(5, NonAssoc))
      else if c == '+' || c == '-' then Some(Prec(9, LeftAssoc))
      else if c == '*' || c == '/' || c == '%' then Some(Prec(10, LeftAssoc))
      else if c == '^' then Some(Prec(11, LeftAssoc))
      else if c == '[' || c == ']' then Some(Prec(14, LeftAssoc))
      else if c == '(' || c == ')' then Some(Prec(15, LeftAssoc))
      else if c == '.' then Some(Prec(16, LeftAssoc))
      else None
    case _ => None
  }

  /** A conflict between reducing a rule and shifting the lookahead. When either side has no
      precedence bison shifts; at equal level the declared associativity decides. */
  function Resolve(rule: Option<Prec>, lookahead: Token): Verdict {
    match (rule, TokenPrec(lookahead))
    case (Some(r), Some(t)) =>
      if r.level > t.level then Reduce
      else if r.level < t.level then Shift
      else (match t.assoc
            case LeftAssoc => Reduce
            case RightAssoc => Shift
            case NonAssoc => Error)
    case _ => Shift
  }
}
