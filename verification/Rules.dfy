/**
 The scanner rules in file order, with the start condition each is active in and the action it
 runs. A keyword rule is one word of an ordered list, so that lists in another order can be compared.
 */
module Rules {
  import opened Tokens
  import opened Regex

  datatype Start = INITIAL | COMMENT

  datatype Rule =
    | Dashes
    | CommentText
    | CommentEnd
    | Blanks
    | KeywordRule(word: string)
    | BangEquals | LessGreater | LessEquals | GreaterEquals | DoubleBar
    | Single
    | FloatDigits | FloatDot
    | Integer
    | Quoted
    | Word
    | StringBody
    | AnyChar

  // The words of the keyword rules in the order of the rule file (lines 55-189), in five parts.
  const WORDS_1: seq<string> := [
    "CURRENT_TIMESTAMP", "AUTOINCREMENT", "CURRENT_DATE", "CURRENT_TIME", "TRANSACTION", "CONSTRAINT",
    "DEFERRABLE", "REFERENCES", "EXCLUSIVE", "IMMEDIATE", "INITIALLY", "INTERSECT", "RECURSIVE",
    "SAVEPOINT", "TEMPORARY", "CONFLICT", "DATABASE", "DEFERRED", "DISTINCT", "RESTRICT", "ROLLBACK",
    "DATETIME", "ANALYZE", "BETWEEN", "BOOLEAN", "CASCADE", "COLLATE"]
  const WORDS_2: seq<string> := [
    "DEFAULT", "EXPLAIN", "FOREIGN", "INDEXED", "INSTEAD", "INTEGER", "NATURAL", "NOTNULL", "PRIMARY",
    "REINDEX", "RELEASE", "REPLACE", "TRIGGER", "VIRTUAL", "WITHOUT", "VARCHAR", "ACTION", "ATTACH",
    "BEFORE", "COLUMN", "COMMIT", "CREATE", "DELETE", "DETACH", "DOUBLE", "ESCAPE", "EXCEPT"]
  const WORDS_3: seq<string> := [
    "EXISTS", "HAVING", "IGNORE", "INSERT", "ISNULL", "OFFSET", "PRAGMA", "REGEXP", "RENAME",
    "SELECT", "UNIQUE", "UPDATE", "VACUUM", "VALUES", "ABORT", "AFTER", "ALTER", "BEGIN", "CHECK",
    "CROSS", "FLOAT", "GROUP", "INDEX", "INNER", "LIMIT", "MATCH", "ORDER"]
  const WORDS_4: seq<string> := [
    "OUTER", "QUERY", "RAISE", "RIGHT", "TABLE", "UNION", "USING", "WHERE", "BLOB", "CASE", "CAST",
    "DESC", "DROP", "EACH", "ELSE", "FAIL", "FROM", "FULL", "GLOB", "INTO", "JOIN", "LEFT", "LIKE",
    "LONG", "NULL", "PLAN", "REAL"]
  const WORDS_5: seq<string> := [
    "TEMP", "TEXT", "THEN", "VIEW", "WHEN", "WITH", "ADD", "ALL", "AND", "ASC", "END", "FOR",
    "INT", "KEY", "NOT", "ROW", "SET", "AS", "BY", "IF", "IN", "IS", "NO", "OF", "ON", "OR",
    "TO"]

  const KEYWORDS: seq<string> := WORDS_1 + WORDS_2 + WORDS_3 + WORDS_4 + WORDS_5

  const SINGLES := "-+*/(){},.;<>=^%:?[]|"

  function Spelling(k: Keyword): string {
    match k
    case RECURSIVE => "RECURSIVE"
    case DISTINCT => "DISTINCT"
    case BETWEEN => "BETWEEN"
    case NOTNULL => "NOTNULL"
    case REPLACE => "REPLACE"
    case EXISTS => "EXISTS"
    case ISNULL => "ISNULL"
    case CASE => "CASE"
    case ELSE => "ELSE"
    case JOIN => "JOIN"
    case LIKE => "LIKE"
    case NULL => "NULL"
    case TEMP => "TEMP"
    case TEXT => "TEXT"
    case THEN => "THEN"
    case WHEN => "WHEN"
    case AND => "AND"
    case END => "END"
    case KEY => "KEY"
    case NOT => "NOT"
    case AS => "AS"
    case IN => "IN"
    case IS => "IS"
    case ON => "ON"
    case OR => "OR"
    case Reserved(w) => w
  }

  /** The token name of a keyword rule, which is the word of its pattern. */
  function KeywordOf(w: string): Keyword {
    match |w|
    case 2 =>
      if w == "AS" then AS else if w == "IN" then IN else if w == "IS" then IS
      else if w == "ON" then ON else if w == "OR" then OR else Reserved(w)
    case 3 =>
      if w == "AND" then AND else if w == "END" then END else if w == "KEY" then KEY
      else if w == "NOT" then NOT else Reserved(w)
    case 4 =>
      if w == "CASE" then CASE else if w == "ELSE" then ELSE else if w == "JOIN" then JOIN
      else if w == "LIKE" then LIKE else if w == "NULL" then NULL else if w == "TEMP" then TEMP
      else if w == "TEXT" then TEXT else if w == "THEN" then THEN else if w == "WHEN" then WHEN
      else Reserved(w)
    case 6 => if w == "EXISTS" then EXISTS else if w == "ISNULL" then ISNULL else Reserved(w)
    case 7 =>
      if w == "BETWEEN" then BETWEEN else if w == "NOTNULL" then NOTNULL
      else if w == "REPLACE" then REPLACE else Reserved(w)
    case 8 => if w == "DISTINCT" then DISTINCT else Reserved(w)
    case 9 => if w == "RECURSIVE" then RECURSIVE else Reserved(w)
    case _ => Reserved(w)
  }

  // ----- patterns -----

  /** The letters of a keyword, under the case-insensitive option. */
  function Letters(w: string): Re {
    if w == [] then Empty else Cat(Char(AnyCase(w[0])), Letters(w[1..]))
  }

  function Literal(w: string): Re {
    if w == [] then Empty else Cat(Char(One(w[0])), Literal(w[1..]))
  }

  const DIGITS := Plus(Char(Digit))
  const SIGN := Maybe(Char(One('-')))
  const QUOTE := Char(Among("\"`"))
  const STRING_ITEMS := Star(Alt(Plus(Char(Except("'"))), Cat(Char(One('\'')), Char(One('\'')))))

  function Pattern(r: Rule): Re {
    match r
    case Dashes => Literal("--")
    case CommentText => Star(Char(Except("\n")))
    case CommentEnd => Char(One('\n'))
    case Blanks => Plus(Char(Among(" \t\n")))
    case KeywordRule(w) => Letters(w)
    case BangEquals => Literal("!=")
    case LessGreater => Literal("<>")
    case LessEquals => Literal("<=")
    case GreaterEquals => Literal(">=")
    case DoubleBar => Literal("||")
    case Single => Char(Among(SINGLES))
    case FloatDigits => Cat(SIGN, Cat(DIGITS, Cat(Char(One('.')), Star(Char(Digit)))))
    case FloatDot => Cat(Char(One('.')), Star(Char(Digit)))
    case Integer => Cat(SIGN, DIGITS)
    case Quoted => Cat(QUOTE, Cat(Plus(Char(Except("\"\n`"))), QUOTE))
    case Word => Cat(Char(Letter), Star(Char(WordChar)))
    case StringBody => Cat(Char(One('\'')), Cat(STRING_ITEMS, Char(One('\''))))
    case AnyChar => Char(Except("\n"))
  }

  /** COMMENT is inclusive: the rules without a start condition stay active in it. */
  predicate Active(r: Rule, start: Start) {
    r == CommentText || r == CommentEnd ==> start == COMMENT
  }

  const BEFORE_KEYWORDS := [Dashes, CommentText, CommentEnd, Blanks]
  const AFTER_KEYWORDS := [
    BangEquals, LessGreater, LessEquals, GreaterEquals, DoubleBar, Single, FloatDigits, FloatDot,
    Integer, Quoted, Word, StringBody, AnyChar]

  function Table(order: seq<string>): seq<Rule> {
    BEFORE_KEYWORDS + seq(|order|, i requires 0 <= i < |order| => KeywordRule(order[i])) + AFTER_KEYWORDS
  }

  // ----- actions -----

  datatype Action = Emit(token: Token) | Skip | Begin(start: Start) | Stop

  /** The copy without the first and the last character. */
  function Crop(text: string): string {
    if |text| < 2 then [] else text[1..|text| - 1]
  }

  function Act(r: Rule, text: string): Action
    requires text != []
  {
    match r
    case Dashes => Begin(COMMENT)
    case CommentText => Skip
    case CommentEnd => Begin(INITIAL)
    case Blanks => Skip
    case KeywordRule(w) => Emit(Kw(KeywordOf(w)))
    case BangEquals => Emit(NotEquals)
    case LessGreater => Emit(NotEquals)
    case LessEquals => Emit(LessEq)
    case GreaterEquals => Emit(GreaterEq)
    case DoubleBar => Emit(Concat)
    case Single => Emit(Sym(text[0]))
    case FloatDigits => Emit(Float(text))
    case FloatDot => Emit(Float(text))
    case Integer => Emit(Int(text))
    case Quoted => Emit(Ident(Crop(text)))
    case Word => Emit(Ident(text))
    case StringBody => Emit(Str(Crop(text)))
    case AnyChar => Stop
  }
}
