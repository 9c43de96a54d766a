# SQL parser: a verified model

The repository turns SQL text into tokens with a flex scanner (`src/parser/flex_lexer.l`), turns
tokens into a syntax tree with a bison grammar (`src/parser/bison_parser.y`), and hands the tree out in
a result object. This project models the parts of that pipeline where rules compete or where memory
changes hands, and proves what they do for every input and every run. `dafny verify dfyconfig.toml`
checks everything (Dafny 4.11).

The two generator files are read by the rules of their utilities (POSIX.1-2017, XCU, "lex" and
"yacc"): longest match, then earliest rule; conflicts by rule and token precedence.

## How the files fit together

**The expression grammar.** `Syntax` has concrete trees, their token yield, and the precedence table as
a condition on the two spines of a tree. `Machine` is the shift-reduce machine; `Soundness` and
`Completeness` show that it is a bijection between accepted token lists and legal trees. `Reader` is a
second parser, recursive and without a stack of its own, that agrees with the machine on every token
list. `Prefixes` finds the place where a rejected list goes wrong. `Ast` and `Rendering` add the tree
that the semantic actions build and a printer; `Minimal` shows that no token list of the same tree has
fewer parentheses than the printed one. `Grouping` lists the strengths of the operators by name and shows
that every chain groups by that list; `Forms` has the other forms token by token, both with `Yields`, which
concatenates yields; and `Readings` settles token lists that look ambiguous. `Binding` relates the `?` markers
of a token list to those of its tree.

**The scanner.** `Regex` and `Rules` hold the patterns, `Lexing` says what the right token list is,
`Scanner` is the loop that finds it, `Languages` puts every pattern in closed form, `Lexemes` lists the
texts of every token, and `Spelled`, `Keywords`, `Comments`, `TextRoundTrip` and `Subtraction` use that.
`Locations` and `Lengths` are the counters that each match updates, and what the parser does with them.
`Tokenizing` is the token-only entry point.

**The heap.** `Memory` has the expression node and its destructor. The allocated objects are a multiset
that is passed from call to call; freeing an object requires it to be in there, so a double free or a
free of somebody else's object cannot be written. `Nodes` has the makers, `Actions` and `Schedule` the
semantic actions that every step of the machine runs, `Values`, `Shapes` and `HeapActions` their effect
on the parser's value stack, and `HeapParser` the run for one expression. `Roots` says what the returned
tree shows of its tokens, field by field: types, operator codes, names, and which tokens each child stands
for. `Parameters`, `Numbering` and `Inputs` follow the `?` markers from the tokens of a whole input to the
parameters of the result. `Result` and `Columns` are the result object and the column constructor. `Joins`
is the grammar of join chains.

## What turned out false, and where exactly

- `-a*b` is not `(-a)*b`: the rule of prefix minus has no `%prec UMINUS`, so it has the level of binary
  minus (`Readings.MinusReading` says which operators bind tighter).
- `NOT a NOT IN (...)` and `a + NOT b NOT IN (...)` are rejected: `NOT IN` behind an operand parses if and
  only if the operand does not end in a prefix `NOT` (`Readings.NotInReading`).
- `a-1` is not a subtraction: the number takes the sign. A word, a minus sign and a number are a
  subtraction if and only if a blank stands between the sign and the number, or the number begins with its
  decimal point; otherwise the text is rejected (`Subtraction.SubtractionIffApart`).
- A comment does not always end at its newline: COMMENT is an inclusive start condition, so the rule for
  blanks and the rule for strings compete with the comment rules (`Comments.CommentEndsIffResumes`). Behind a
  comment line, any indent and what follows it are still comment, unless a string began in the comment line
  and runs across the newline (`Comments.IndentKeepsComment`, `Comments.IndentedLineIsLost`).
- `tokenize` does not free every string: it leaves one allocated if and only if the first token is an
  identifier or a string (`Tokenizing.Tokenize`).
- `setErrorDetails` frees nothing: an allocated object is left without an owner if and only if the result
  already had a message (`Result.SQLParserResult.SetErrorDetails`, `Lengths.ReportTwice`).
- In `LIMIT ?, ?` the offset is the parameter with the smaller number (`Inputs.LimitMarkers`).
- Statement lengths that tests expect (`test/sql_tests.cpp:216-225`) say which statement a `;` belongs to;
  the model proves only what holds for every order of scanning and reducing.

## Model

| member | source | states |
|---|---|---|
| Machine.Step | src/parser/bison_parser.y:835-945 | Every step consumes a token or, at the same input, lowers the stack: the machine halts on every token list. |
| Soundness.StepKeeps | src/parser/bison_parser.y:234-253 | Invariant of every step: the values on the stack are legal trees, each pending operator was shifted over the rule below it, and stack plus remaining input spell the original input. |
| Soundness.RunIsSound | src/parser/bison_parser.y:234-253 | Over a whole run: an accepted tree is legal and its yield is everything the configuration stood for. |
| Soundness.ParseIsSound | src/parser/bison_parser.y:847-945 | A returned tree yields exactly the input tokens and respects the precedence table. |
| Completeness.RunsOperand | src/parser/bison_parser.y:855-945 | From any stack that leaves it room, the machine reads the yield of a legal operand and stands behind it with that operand. |
| Completeness.RunsExpr | src/parser/bison_parser.y:847-945 | The same for the AND/OR level, IN, BETWEEN and EXISTS. |
| Completeness.RunsCase | src/parser/bison_parser.y:912-922 | The same for CASE with or without a base and an ELSE, and any number of arms. |
| Completeness.ParseIsComplete | src/parser/bison_parser.y:847-945 | Every legal tree is recovered from its yield. |
| Completeness.ParseIffLegal | src/parser/bison_parser.y:234-253 | The parser returns a tree for a token list if and only if the tree is legal and the list is its yield. |
| Completeness.LegalTreesAreUnique | src/parser/bison_parser.y:234-253 | Two legal trees with the same yield are the same tree. |
| Prefixes.StepMoves | src/parser/bison_parser.y:835-945 | Every step reads a prefix of the input, and does the same on every input with that prefix and a rest that no pending rule mistakes for something else. |
| Prefixes.CompletionRuns | src/parser/bison_parser.y:835-945 | From every reachable stack there are tokens that complete all pending rules. |
| Prefixes.ErrorIsFirst | src/parser/bison_parser.y:847-945 | A rejected token list goes wrong at exactly one place: its tokens before it begin an accepted list, and no accepted list shares one token more. |
| Reader.AgreeOperand | src/parser/bison_parser.y:855-945 | Below any stack, the shift-reduce machine behaves as if the recursive reader had read the operand, whether the reader succeeds or fails. |
| Reader.AgreeExpr | src/parser/bison_parser.y:847-899 | The same for expressions. |
| Reader.ReaderIsParse | src/parser/bison_parser.y:847-945 | On every token list the precedence-climbing reader and the shift-reduce machine give the same tree or the same rejection. |
| Readings.MinusReading | src/parser/bison_parser.y:243-249 | `- a op b` groups as `-(a op b)` exactly for `*` `/` `%` `^` and the concatenation operator. |
| Grouping.ChainReading | src/parser/bison_parser.y:234-246 | Any chain of prefixes, infix operators and null tests over primaries parses to the tree that a ranking of the operators by name gives, and is rejected exactly where two comparisons of one strength meet. |
| Grouping.OperandIsChain | src/parser/bison_parser.y:855-937 | Every operand of the grammar is such a chain, so the ranking decides all of them. |
| Grouping.PairReading | src/parser/bison_parser.y:234-246 | `x op1 y op2 z` for every pair of infix operators and any primaries: the stronger operator takes `y`, equal comparisons reject, the rest groups left; NOT LIKE in second place always groups left. |
| Grouping.NotReading | src/parser/bison_parser.y:236-246 | `NOT x op y` negates all of `x op y`, for every infix operator. |
| Grouping.InnerNotReading | src/parser/bison_parser.y:236-246 | `x op1 NOT y op2 z` negates `y op2 z`, for every pair. |
| Grouping.LogicReading | src/parser/bison_parser.y:234-235 | Any chain of AND and OR: OR takes everything in front of it, AND only the last disjunct, each groups left. |
| Grouping.AndIsStrongerThanOr | src/parser/bison_parser.y:234-235 | The four chains of two connectives, written out: `x OR y AND z` is `x OR (y AND z)`, `x AND y OR z` is `(x AND y) OR z`, chains of one connective group left. |
| Readings.ClosesIffNoNot | src/parser/bison_parser.y:236-246 | A NOT closes an operand if and only if the operand does not end in a prefix NOT. |
| Readings.NotInReading | src/parser/bison_parser.y:901-908 | `operand NOT IN (list)` is accepted if and only if the operand does not end in a prefix NOT; without the NOT it is always accepted. |
| Readings.NotInSelectReading | src/parser/bison_parser.y:903-904 | The same for `operand NOT IN (select)`. |
| Forms.LeafForm | src/parser/bison_parser.y:947-983 | One token alone is an expression if and only if it is a name, a number, NULL, `*` or `?`; the six keywords that are names are listed. |
| Forms.DottedForm | src/parser/bison_parser.y:947-952 | Behind `table .` exactly a name or `*` is accepted. |
| Forms.NotInForm | src/parser/bison_parser.y:901-908 | `x NOT IN (list)` over any operand and any list of aliased elements: its tree, or rejection if `x` ends in a prefix NOT. |
| Forms.CaseForm | src/parser/bison_parser.y:912-922 | CASE over any base, branches and ELSE is accepted, with these parts in order. |
| Forms.OnlyAliases | src/parser/bison_parser.y:1062-1072 | An alias is an identifier or a string: any other token behind AS is rejected, and so are the keyword names without AS. |
| Forms.InSelectForm | src/parser/bison_parser.y:903-904 | `x IN (select)` and `x NOT IN (select)` over any operand. |
| Forms.NothingIsMissing | src/parser/bison_parser.y:912-941 | A CASE without an arm and a DISTINCT without an argument are rejected. |
| Rendering.RenderBuilds | src/parser/bison_parser.y:847-945 | The printed tree is legal, and the semantic actions build the node back from it. |
| Rendering.TokenRoundTrip | src/parser/bison_parser.y:847-945 | Parsing the tokens of a printed node gives the node back. |
| Minimal.BuildableIffParsed | src/parser/bison_parser.y:847-945 | A node is returned for some token list if and only if it is buildable: every CASE has an arm and every DISTINCT an argument. |
| Minimal.ExprIsLeast | src/parser/bison_parser.y:234-253 | Against every legal tree of the same node the printed tree has no more grouping parentheses, and fewer wherever only the other tree fits in front of an operator or behind one. |
| Minimal.FewestParentheses | src/parser/bison_parser.y:234-253 | Every token list that parses to a node has at least as many opening parentheses as the printed tokens of the node. |
| Minimal.NoPairIsIdle | src/parser/bison_parser.y:234-253 | Deleting any opening parenthesis of the printed tokens together with any later token gives a list that is rejected or stands for another node. |
| TextRoundTrip.TextRoundTrips | src/parser/bison_parser.y:847-945 | Printing a node, writing its tokens with single blanks, scanning and parsing gives the node back. |
| Subtraction.SubtractionIffApart | src/parser/flex_lexer.l:197-208 | For all runs of blanks and every unsigned number: a word, a minus sign and the number are the subtraction if and only if blanks follow the sign or the number begins with a point, and are rejected otherwise. |
| Regex.DeriveIsQuotient | src/parser/flex_lexer.l:47-227 | The derivative of a pattern matches exactly what completes the character to a match. |
| Regex.JammedMatchesNothing | src/parser/flex_lexer.l:47-227 | A jammed pattern has no match left. |
| Languages.PatternClosed | src/parser/flex_lexer.l:49-227 | The language of every rule, without regular expressions. |
| Lexing.SomethingFits | src/parser/flex_lexer.l:53-227 | In both start conditions some rule matches at least one character of every non-empty text, so tokenization terminates. |
| Lexing.PiecesCover | src/SQLParser.cpp:63-73 | The matched pieces, concatenated, are the consumed prefix; it stops only at the end of the text or in front of a character that the last rule takes. |
| Lexing.PiecesAreNotEmpty | src/SQLParser.cpp:63-73 | Every piece has at least one character. |
| Scanner.LongestMatch | src/parser/flex_lexer.l:47-227 | The loop that remembers the last accepting position returns the longest, then earliest match, for every text and start condition. |
| Scanner.Lexer.Take | src/parser/bison_parser.y:43-57 | One match: the position moves behind it, and the location record spans it. |
| Scanner.Lexer.Next | src/parser/flex_lexer.l:47-227 | One call of the scanner returns the next token of the token list, with a lexeme of that token as the matched text; the location record starts where that token starts; the end is reported only at the end of the text or at an unknown character. |
| Spelled.OneLexeme | src/parser/flex_lexer.l:191-225 | The spelling of a token in front of a blank or the end is one match, whose action returns the token. |
| Spelled.SpellingIsRead | src/parser/flex_lexer.l:191-225 | Scanning the blank-separated spelling of any list of well-formed tokens returns that list with its semantic values. |
| Lexemes.LexemeIsRead | src/parser/flex_lexer.l:191-225 | Every lexeme of a token, written out by characters, in front of a blank or the end is read as that token: both spellings of the inequality, backquotes and needless quotes, a lone point, keywords in any case. |
| Lexemes.EmittedIsLexeme | src/parser/flex_lexer.l:191-225 | Whatever the text and the start condition, a match that returns a token is one of its lexemes. |
| Lexemes.LexemeIff | src/parser/flex_lexer.l:191-225 | A text in front of a blank or the end is one match for a token if and only if it is a lexeme of it. |
| Keywords.WordIsRead | src/parser/flex_lexer.l:216-219 | A maximal unquoted word becomes an identifier exactly when it is not a keyword in any case of letters, and otherwise that keyword. |
| Keywords.KeywordOrderIsIrrelevant | keywords/list.py:8-9 | Any permutation of the keyword rules gives the same tokens on every text. |
| Comments.CommentEndsIffResumes | src/parser/flex_lexer.l:42-53 | After `--`, a comment text and a newline the scanner is back in INITIAL exactly there if and only if no competing rule runs across the newline. |
| Comments.CommentIsSkipped | src/parser/flex_lexer.l:49-51 | In that case the comment gives no token and the rest is scanned as if it stood alone. |
| Comments.OrdinaryCommentResumes | src/parser/flex_lexer.l:42-53 | It is the case when the text is empty, or has a non-blank and does not start with a quote, and the next line does not start with a blank. |
| Comments.IndentKeepsComment | src/parser/flex_lexer.l:42-53 | Behind a comment line and any non-empty run of blanks the scanner stands in COMMENT exactly there if and only if no string runs across the newline. |
| Comments.IndentedTextIsComment | src/parser/flex_lexer.l:42-53 | In that case the tokens are those of the text behind the indent, scanned as comment. |
| Comments.IndentedLineIsLost | src/parser/flex_lexer.l:50-53 | The indented line gives no token, and the scan goes on behind it when that line resumes. |
| Comments.LastIndentedLineIsLost | src/parser/flex_lexer.l:50-53 | At the end of the text the indented line leaves no token at all. |
| Locations.PositionIsCount | src/parser/bison_parser.y:46-56 | Line and column of a prefix are its number of newlines and the distance to its last one. |
| Locations.Location.UserAction | src/parser/bison_parser.y:43-57 | The character-by-character update moves the record from the position of one prefix to that of the next; spans touch. |
| Lengths.ReduceStatement | src/parser/bison_parser.y:281-294 | The statement takes the running length, which starts again, and goes behind all others of the innermost list; a trigger carries the list begun for it. |
| Lengths.PlayConserves | src/parser/bison_parser.y:43-57 | Length conservation under any interleaving of scans and reductions, nested triggers included: recorded lengths, running length and remaining text add up to the text. |
| Lengths.PlayIsWritten | src/parser/bison_parser.y:281-294 | The recorded lists, written out, are the reductions one by one in their order, with the begin of each trigger; each length is the total column at its reduction minus that at the reduction before. |
| Lengths.ListIsInOrder | src/parser/bison_parser.y:281-294 | Without triggers, the k-th statement of the list is the k-th reduced one, with that length. |
| Lengths.Process | src/parser/bison_parser.y:281-294 | After any sequence of scans and reductions the scanner and the record are where the events put them, the lists hold the reduced statements in order, and the total column is the sum of all recorded lengths and the running one. |
| Lengths.ReportError | src/parser/bison_parser.y:22-26 | The error handler invalidates the result, gives it a new copy of the message and the start of the lookahead, and changes nothing else; a message that was there is left without an owner. |
| Lengths.ReportTwice | src/SQLParserResult.cpp:67-71 | Two failing parses into one result lose the first message, unless the result is reset in between. |
| Lengths.FailAt | src/parser/bison_parser.y:22-26 | For a text that is no expression, the report is the line and column where the first token starts behind which no accepted list goes on; an accepted list begins with all tokens before it. |
| Tokenizing.NextToken | src/parser/flex_lexer.l:210-225 | A scanned identifier or string comes with a new string object; no other token allocates. |
| Tokenizing.Tokenize | src/SQLParser.cpp:49-78 | The token list of the text, with a span of the text for each token that is one of its lexemes, in order; all strings are freed except that of the first token. |
| Memory.DeleteExpr | src/sql/Expr.cpp:25-40 | The destructor terminates and frees exactly what the tree owns, each object once. |
| Memory.DeleteVector | src/parser/bison_parser.y:144-151 | The destructor of a list frees its elements and the vector, each once. |
| Nodes.MakeAtom | src/sql/Expr.cpp:105-197 | A maker without child expressions: one new node for the given literal, column, star, named parameter, select or EXISTS. |
| Nodes.MakeParameter | src/parser/bison_parser.y:980-984 | A new parameter node with its provisional number and its index in the list. |
| Nodes.MakeOpUnary | src/sql/Expr.cpp:47-53 | A new node over its operand; the operand's tree is unchanged. |
| Nodes.MakeOpBinary | src/sql/Expr.cpp:55-61 | A new node with left and right operand in order. |
| Nodes.MakeBetween | src/sql/Expr.cpp:63-71 | A new node and a new vector with the two bounds in order. |
| Nodes.MakeWithList | src/sql/Expr.cpp:152-223 | Function calls and IN take over the vector, the select or neither. |
| Nodes.PushBack | src/parser/bison_parser.y:835-838 | The list grows by one element at its end; the elements before it keep their place. |
| Nodes.SetAlias | src/parser/bison_parser.y:840-845 | Only the alias of the element changes. |
| Nodes.MakeCaseListElement | src/sql/Expr.cpp:81-87 | The element of an arm, WHEN before THEN. |
| Nodes.MakeCaseList | src/sql/Expr.cpp:73-79 | The shell with its first arm. |
| Nodes.CaseListAppend | src/sql/Expr.cpp:89-92 | One more arm at the end, for any number of calls. |
| Nodes.MakeCase | src/sql/Expr.cpp:94-103 | The arms move to the new node in order and survive the deletion of the shell, which is freed once. |
| Schedule.ActionsBuild | src/parser/bison_parser.y:835-945 | The semantic actions of every step turn the values of a configuration into those of the next one. |
| Schedule.ActionsMake | src/parser/bison_parser.y:979-986 | Each step makes one parameter for each `?` it consumes. |
| Values.ValuesAreDisjoint | src/parser/bison_parser.y:141-152 | Two values on the parser stack never own the same object, nor one that was there before the run. |
| Values.Destroy | src/parser/bison_parser.y:141-152 | The destructor of one value frees what it owns. |
| Values.DestroyAll | src/parser/bison_parser.y:141-152 | After a syntax error the destructors leave exactly what was allocated before the run. |
| HeapActions.DoName | src/parser/bison_parser.y:1153-1162 | A name leaves one string on the stack. |
| HeapActions.DoAtom | src/parser/bison_parser.y:947-977 | A node without children takes over its strings. |
| HeapActions.DoParameter | src/parser/bison_parser.y:979-984 | The parameter takes the next index and joins the list of parameters. |
| HeapActions.DoUnary | src/parser/bison_parser.y:870-876 | The action computes what the value semantics says and keeps the ownership invariant. |
| HeapActions.DoBinary | src/parser/bison_parser.y:878-899 | Likewise for infix operators, AND and OR. |
| HeapActions.DoBetween | src/parser/bison_parser.y:943-945 | Likewise for BETWEEN. |
| HeapActions.DoFirstItem | src/parser/bison_parser.y:835-845 | Likewise for a one-element list with its alias. |
| HeapActions.DoNextItem | src/parser/bison_parser.y:835-845 | Likewise for one more element; only the list and the element are written. |
| HeapActions.DoEmptyCall | src/parser/bison_parser.y:938-939 | A call without arguments gets an empty vector of its own. |
| HeapActions.DoCall | src/parser/bison_parser.y:938-941 | A call takes over name and arguments. |
| HeapActions.DoEmptyIn | src/parser/bison_parser.y:906-907 | `IN ()` has no list. |
| HeapActions.DoListIn | src/parser/bison_parser.y:902-903 | `IN (list)` takes over the list. |
| HeapActions.DoSelectIn | src/parser/bison_parser.y:904-905 | `IN (select)` takes over the select. |
| HeapActions.DoFirstArm | src/parser/bison_parser.y:919-920 | The first arm of a CASE. |
| HeapActions.DoNextArm | src/parser/bison_parser.y:921-921 | One more arm; only the vector of the shell is written. |
| HeapActions.DoCase | src/parser/bison_parser.y:912-917 | CASE in its four forms: the shell is gone, its arms belong to the new node. |
| HeapParser.ParseOnto | src/parser/bison_parser.y:847-986 | For every token list, on top of any value stack: accepted, the new top value stands for the parsed expression and each `?` has extended the parameter list, numbered on from its old length; rejected, everything on the stack is destroyed. |
| HeapParser.ParseExpression | src/parser/bison_parser.y:847-986 | For every token list: accepted, the new tree stands for the parsed expression, owns everything the run left allocated, and holds one parameter for each `?`, numbered in order; rejected, nothing is left allocated. |
| Roots.InfixRoot | src/parser/bison_parser.y:878-937 | Where the tokens of an infix operator hold two operands together, the root has the operator code listed for those tokens, and its children stand for the tokens on the left and on the right. |
| Roots.LogicRoot | src/parser/bison_parser.y:896-899 | The same for AND and OR. |
| Roots.PrefixRoot | src/parser/bison_parser.y:870-872 | The same for the prefixes; NOT always takes the whole operand behind it. |
| Roots.TestRoot | src/parser/bison_parser.y:873-875 | ISNULL and IS NULL have one node, IS NOT NULL is the negation of one. |
| Roots.ParenRoot | src/parser/bison_parser.y:856 | Parentheses leave no trace in the tree. |
| Roots.BetweenRoot | src/parser/bison_parser.y:943-945 | BETWEEN: the subject, and a vector of the lower and the upper bound. |
| Roots.InRoot | src/parser/bison_parser.y:901-908 | IN: the subject, and a vector with the elements in order, each with its alias; without elements there is no vector. |
| Roots.NotInRoot | src/parser/bison_parser.y:901-908 | NOT IN is a negation over the IN node. |
| Roots.InSelectRoot | src/parser/bison_parser.y:901-908 | IN and NOT IN over a nested select. |
| Roots.ExistsRoot | src/parser/bison_parser.y:924-927 | EXISTS and NOT EXISTS. |
| Roots.SelectRoot | src/parser/bison_parser.y:862 | A nested select as an operand. |
| Roots.CallRoot | src/parser/bison_parser.y:938-941 | A call: the text of its name, for the six keyword names too, its DISTINCT flag, and its arguments in order with aliases, whether AS was written or not. |
| Roots.CaseRoot | src/parser/bison_parser.y:912-922 | CASE: base, ELSE, and one element per branch in order with its condition and its value. |
| Roots.LeafRoot | src/parser/bison_parser.y:947-983 | The type and the text of every one-token expression, the six keyword names written out. |
| Roots.DottedRoot | src/parser/bison_parser.y:947-952 | `table . name` and `table . *`: type, table and name, the six keyword names written out. |
| Roots.NamedRoot | src/parser/bison_parser.y:985 | A named parameter. |
| Binding.BindingCommutes | src/parser/bison_parser.y:979-984 | Writing the k-th number for the k-th `?` of a token list and parsing gives the parsed tree with the numbers written in from left to right; the tree has one marker for each `?`. |
| Parameters.ParametersAreDistinct | src/parser/bison_parser.y:267-275 | The parameters of all values on the stack are distinct nodes that the values own. |
| Parameters.FillIsBind | src/parser/bison_parser.y:979-984 | The order of the parameter nodes is that of the markers: filling a heap tree by the index that each node carries is filling its markers from left to right. |
| Inputs.PartsBind | src/parser/bison_parser.y:260-278 | Binding the expressions of an input one behind the other is binding the `?` tokens of its whole token list. |
| Inputs.ParseParts | src/parser/bison_parser.y:260-294 | For every input: accepted, the stack holds one tree for each expression in token order, and one parameter for each `?` of the whole input; rejected, nothing is left allocated. |
| Inputs.ParseInput | src/parser/bison_parser.y:260-278 | The k-th `?` of the whole input is the k-th entry of `parameters()` with `ival` and `ival2` k: each expression of the input with numbers for its markers is the tree filled by those indices; numbering leaves every tree as it is. |
| Inputs.LimitByWords | src/parser/bison_parser.y:825-830 | Behind LIMIT the first expression is the offset if a comma follows it, and the limit if OFFSET does. |
| Inputs.LimitMarkers | src/parser/bison_parser.y:825-830 | `LIMIT ?, ?` makes the first `?` the offset and the second the limit, with consecutive numbers; `LIMIT ? OFFSET ?` the other way round. |
| Result.Sort | src/SQLParserResult.cpp:102-105 | Ordered by `ival`, and a permutation. |
| Result.OrderIsUnique | src/SQLParserResult.cpp:102-105 | A list with strictly increasing `ival` is its only ordered permutation, so sorting leaves it as it is. |
| Result.SQLParserResult.constructor | src/SQLParserResult.cpp:7-9 | An empty, invalid result without a message. |
| Result.SQLParserResult.FromStatement | src/SQLParserResult.cpp:11-15 | A result that owns one statement. |
| Result.SQLParserResult.Move | src/SQLParserResult.cpp:18-25 | Everything owned moves; the old result is as after a reset; the parameters stay behind. |
| Result.SQLParserResult.SetErrorDetails | src/SQLParserResult.cpp:67-71 | The result owns the new message; of what is allocated an object is left without an owner if and only if there was a message before. |
| Result.SQLParserResult.AddStatement | src/SQLParserResult.cpp:31-33 | The statement is appended. |
| Result.SQLParserResult.ReleaseStatements | src/SQLParserResult.cpp:77-83 | The caller gets the statements in order and the result has none. |
| Result.SQLParserResult.Reset | src/SQLParserResult.cpp:85-97 | Statements and message are freed, each once, and nothing else; the parameters are kept. |
| Result.SQLParserResult.AddParameter | src/SQLParserResult.cpp:100-106 | Ordered by `ival`; a parameter with a larger `ival` than all others ends up last. |
| Result.FinishInput | src/parser/bison_parser.y:260-278 | The statements move into the result in order; the non-null parameters are numbered from 0 and listed in that order. |
| Result.Execute | src/SQLParserResult.cpp:18-97 | Any sequence of create, add, move, release, reset and destroy on any number of results: each result, the released list and the deleted list hold exactly the statements that the operations put there, in order; added = allocated + deleted. |
| Result.LedgerMoves | src/SQLParserResult.cpp:18-97 | What each operation does to every list of statements, case by case. |
| Result.ContentsAreInOrder | src/SQLParserResult.cpp:18-97 | However results are moved, emptied and destroyed, every result has its statements in the order in which they were added. |
| Result.OnePlace | src/SQLParserResult.cpp:18-97 | After it, each added statement is in exactly one place, once: one result, the released list, or deleted; it is allocated unless it was deleted. |
| Columns.FlagsAreOrderFree | src/sql/statements.cpp:18-46 | The flags that the rounds of the loop leave do not depend on the order or repetition of the constraints. |
| Columns.ColumnDefinition.Take | src/sql/statements.cpp:18-46 | One round of the fold: the superseded value and the constraint are deleted, the new value belongs to the column. |
| Columns.NewColumn | src/sql/statements.cpp:7-46 | Each flag of the column says which types of constraints occur (a primary key is unique and not nullable); the last DEFAULT and the last foreign key survive; all else is deleted once. |
| Columns.DeleteColumn | src/sql/statements.cpp:48-52 | The destructor of a column frees what the constructor left with it. |
| Joins.RunIsSound | src/parser/bison_parser.y:1078-1112 | A returned join tree yields everything the configuration stood for. |
| Joins.RunsTable | src/parser/bison_parser.y:1003-1112 | Wherever a table is wanted, the parser reads the yield of any join tree and stands behind it. |
| Joins.JoinTreesAreRecovered | src/parser/bison_parser.y:1003-1126 | A token list parses to a join tree if and only if it is the yield of that tree. |
| Joins.TypeIsByWords | src/parser/bison_parser.y:1115-1126 | Between any two tables, the words in front of JOIN give the type listed for them; the first table is on the left. |
| Joins.NaturalType | src/parser/bison_parser.y:1079-1086 | NATURAL JOIN behind any table is a natural join with a single table on the right. |
| Joins.ChainIsLeftDeep | src/parser/bison_parser.y:1078-1112 | A chain with each ON or USING directly behind its right table is left-deep, for any length. |
| Joins.NestedClosersAreRightDeep | src/parser/bison_parser.y:1078-1112 | When all closers come at the end, they close the joins from the inside. |

## Left out

- MATCH, ILIKE and ESCAPE in expressions: MATCH and ESCAPE have no declared precedence, so their reading is
  bison's default choice, and the scanner never returns ILIKE.
- Nested selects: a parenthesised select is one opaque token and one opaque object that its expression owns;
  `?` markers inside it are not counted.
- The rest of the grammar (SELECT lists, set operations, INSERT, UPDATE, DDL, PRAGMA, ALTER): mostly copying of
  fields; set operations over parenthesised selects overwrite fields, so the whole grammar is not leak free.
- The generated tables and the moment at which a lookahead is fetched. A step of the machine groups shifts that
  no conflict interrupts, such as `IDENTIFIER . name`.
- HeapParser.ParseExpression: strings of the lookahead and of tokens inside such a group are allocated when the
  group is complete, so an error in the middle of a group does not show its strings being freed. The same holds
  for HeapParser.ParseOnto.
- Locations.Location.UserAction: `tokenize` never initialises the record it passes, and the loop stops at a NUL
  character; the model starts from the state of the parser's initial action and has no NUL in its text.
- Inputs.ParseInput: how an input splits into expressions and the tokens of the other rules is given, and so are
  the statements; a LIMIT description is a value. The result has no parameters before: neither `reset` nor the
  move constructor clears or moves `parameters_`, so nothing is said about a result that is used twice.
- Result.SQLParserResult.Move: a moved-from vector is taken to be empty, as with the default allocator; the error
  position of the new result is left open because the constructor does not set it.
- Result.Sort: `std::sort` is modelled by an insertion sort; only its contract is used.
- Number texts: `atol` and `atof`, their overflow and the floating-point fields are not modelled; literals keep
  their text.
- Characters are abstract: bytes, encodings and locale do not occur.
- Integer widths: counters and column numbers are unbounded.
- Columns.NewColumn: the type modifier is copied by the grammar action and not by the constructor; the columns and
  events inside a foreign key are opaque, and so is the name string of the column.
- Lengths.Process: recorded statements are values, because only their length and their nesting matter here. Which
  statement's length includes the `;` depends on when a lookahead is fetched and is left open.
- Joins.JoinTreesAreRecovered: conditions, column names and table names with their aliases are opaque tokens; the
  condition that USING builds from the two table names is not modelled.
- Destructors of statements, constraint lists and table constraints on a syntax error inside DDL: several list
  types have no element destructor.
- src/util/sqlhelper.cpp, benchmarks, build files and examples.
