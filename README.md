# ConditionProcessor: the scanner and the evaluating parser, in Dafny

ConditionProcessor is a small condition language with two classes built on
the `sly` library. `ProcessorLexer` cuts a line of text into tokens.
`ProcessorParser` reads one statement from those tokens and evaluates it as
it parses: an assignment `a = 3 + 4`, a call `f(1, 2)`, a list `8, 9`, or a
single expression such as `not (5 < 4) and x`. The parser keeps the
assigned variables (`names`) and an append-only list of errors between
statements.

The model has these modules:

- **Lexer** (lexer.dfy). The rules in declaration order (`RuleAt`), each
  rule's matcher, and first-match alternation (`FirstMatchFrom`): the first
  alternative that matches wins, not the longest. `Step` is one pass of the
  scanning loop; `ScanFrom` and `Scan` are the scan of a whole text.
  `DecodeNumber` is the NUMBER action. The class `ProcessorLexer` has the
  fields `errors`, `index` and `lineno`. Its methods: the `newline` action
  (`CountNewlines`), the `error` action (`Error`), one loop pass
  (`Advance`), and the scanning loop (`Tokenize`), which is proved equal to
  `Scan`.
- **LexerFacts** (lexer_facts.dfy). What the scanner promises:
  - first match wins, so `==` is one token and `index` is `in` then `dex`;
  - identifiers are greedy;
  - `hex`, `bin` and `str` of a number read back to that number;
  - blanks and comments produce nothing;
  - a run of newlines raises the line count by its length;
  - a character no rule accepts is logged and skipped;
  - the final line is 1 plus the number of newlines;
  - tokens come out in line order, and no NUMBER is negative.
- **Values** and **Actions** (values.dfy, actions.dfy). Python values:
  int, bool, list, and the `(name, list-or-None)` pair. Also the reduction
  actions as functions of the values of a rule's children. `bool` is a
  subtype of `int`, and Python's `==` compares numbers by value.
  **ActionFacts** (action_facts.dfy) proves the algebra of the actions.
- **Parser** (parser.dfy). Precedence climbing over the precedence table:
  `ParseOperand`, `ParseExpr`, `ParseTail`, then the statement forms and
  `ParseStatement`. A phrase yields a value or a `Fault`:
  - a syntax error at a position;
  - a TypeError;
  - a division by zero;
  - a construct the model does not represent.

  The class `ProcessorParser` holds `names` and `errors`. Its methods are
  the assignment action, the ID action, `error` and `Parse`.
- **ParserFacts** (parser_facts.dfy). The undefined names a phrase reports
  are exactly the unbound names of the ID tokens it covers, in order.
- **Expressions** (expressions.dfy). An independent reference for the
  parser:
  - expression trees with their own evaluator (`Eval`);
  - the printing of a tree as tokens (`Show`);
  - the placement of parentheses the precedence table requires (`Bracket`).

  The main theorem is `ParsePrinted`: any tree, printed with those
  parentheses, parses back to the tree's value.
- **Statements** (statements.dfy). Whole statements:
  - an expression statement yields its expression's value;
  - `x = e` binds `x`, and a later `x` reads the value back;
  - several statements of the repository's tests, one lemma each.
- **Lists** (lists.dfy). Lists and calls built from printed trees:
  - `e1 , … , en` yields the trees' values in order, or the first fault;
  - `( … )`, inside any number of further parentheses, yields the same list;
  - `()`, inside any number of them, yields nothing;
  - `f( … )` pairs `f` with the list, and `f()` or `f(())` pairs it with None;
  - the nested-list and nested-call statements of the repository's tests.

Integers are unbounded, as in Python. Strings are sequences of characters.

## Model

| member | source | states |
|---|---|---|
| Lexer.SpanEnd | syntax_processor_lexer.py:25 | a greedy repetition ends at the first character outside its class, and every character before it is in the class |
| Lexer.RuleAt | syntax_processor_lexer.py:21-56 | the rules in the order the class declares them; every fixed-text pattern is non-empty and has no newline |
| Lexer.MatchLiteral | syntax_processor_lexer.py:21-37 | a fixed-text rule matches exactly when the text continues with its pattern, and the match ends right after it |
| Lexer.MatchNumber | syntax_processor_lexer.py:39-41 | the NUMBER rule matches a `0x`+hex, `0b`+binary or decimal lexeme; it fails exactly when the character is not a decimal digit |
| Lexer.MatchRule | syntax_processor_lexer.py:21-56 | every match is non-empty and inside the text; a NUMBER match is a NUMBER lexeme |
| Lexer.FirstMatchFrom | syntax_processor_lexer.py:21-56 | the chosen rule matches and no earlier rule does; no rule matches when nothing is chosen |
| Lexer.DigitValue | syntax_processor_lexer.py:44-48 | a hex digit's value is below 16, a decimal digit's below 10, a binary digit's below 2 |
| Lexer.DecodeNumber | syntax_processor_lexer.py:42-49 | the value of a NUMBER lexeme is never negative |
| Lexer.Step | syntax_processor_lexer.py:58-60 | each step consumes at least one character and never lowers the line number |
| Lexer.ProcessorLexer.constructor | syntax_processor_lexer.py:62-63 | a new lexer has an empty error list, index 0 and line 1 |
| Lexer.ProcessorLexer.CountNewlines | syntax_processor_lexer.py:54-56 | the line number grows by the number of newlines in the lexeme |
| Lexer.ProcessorLexer.Error | syntax_processor_lexer.py:58-60 | the first unmatched character is appended to `errors` and the index moves one place |
| Lexer.ProcessorLexer.Advance | syntax_processor_lexer.py:39-60 | one pass of the tokenize loop leaves index, line and errors as `Step` says, and emits `Step`'s token |
| Lexer.ProcessorLexer.Tokenize | syntax_processor_lexer.py:18-60 | the tokens are `Scan`'s; `Scan`'s logged characters are appended to the errors of earlier calls; the final line is `Scan`'s; the whole text is consumed |
| LexerFacts.MatchStartsWith | syntax_processor_lexer.py:21-56 | a rule matches only at a character it can begin with |
| LexerFacts.FirstMatchWins | syntax_processor_lexer.py:21-41 | when a rule matches and no earlier one does, the master pattern takes that rule and its match, whatever later rules would match |
| LexerFacts.TwoCharacterOperators | syntax_processor_lexer.py:26-37 | `==`, `!=`, `>=`, `<=` each give one EQ, NE, GE or LE token, never ASSIGN, GT or LT |
| LexerFacts.KeywordsBeforeIdentifiers | syntax_processor_lexer.py:21-25 | where the text continues with `and`, `not`, `or` or `in`, those letters alone give the keyword's token |
| LexerFacts.IdentifierIsGreedy | syntax_processor_lexer.py:25 | a word that starts no keyword is one ID token, running to the first character that cannot continue an identifier |
| LexerFacts.ToDigits | syntax_processor_lexer.py:44-48 | how Python prints a number in a base: non-empty, made of that base's digits |
| LexerFacts.DigitsRoundTrip | syntax_processor_lexer.py:44-48 | reading back the printed digits of `n` in a base gives `n` |
| LexerFacts.DecodePrinted | syntax_processor_lexer.py:39-49 | `hex(n)`, `bin(n)` and `str(n)` are NUMBER lexemes that decode to `n` |
| LexerFacts.DecodeTen | syntax_processor_lexer.py:43-46 | "0xa" and "0b1010" both decode to 10 |
| LexerFacts.NumberStep | syntax_processor_lexer.py:39-49 | a digit starts a NUMBER token whose value is its decoded lexeme |
| LexerFacts.WholeNumberScan | syntax_processor_lexer.py:39-49 | a text that is one NUMBER lexeme scans to that NUMBER alone, with no error |
| LexerFacts.ScanHexLiteral | syntax_processor_lexer.py:39-44 | `hex(n)` scans to the one token NUMBER `n` |
| LexerFacts.ScanBinLiteral | syntax_processor_lexer.py:39-46 | `bin(n)` scans to the one token NUMBER `n`, not to `0` followed by an identifier |
| LexerFacts.ScanDecimalLiteral | syntax_processor_lexer.py:39-49 | `str(n)` scans to the one token NUMBER `n` |
| LexerFacts.BlankStep | syntax_processor_lexer.py:18 | a blank or tab is skipped with no token and no error |
| LexerFacts.CommentStep | syntax_processor_lexer.py:52 | a `#` comment runs to the end of its line and produces no token and no error |
| LexerFacts.OnlyIgnoredText | syntax_processor_lexer.py:18-52 | a line of blanks, tabs and comments scans to nothing |
| LexerFacts.NewlineRun | syntax_processor_lexer.py:54-56 | a run of `k` newlines emits nothing and raises the line number by exactly `k` |
| LexerFacts.UnknownCharacter | syntax_processor_lexer.py:58-60 | a character no rule accepts, neither ignored nor `(`/`)`, is logged alone, and the scan resumes right after it |
| LexerFacts.BracketScan | syntax_processor_lexer.py:58-60 | `[` and `]` are logged and skipped |
| LexerFacts.CommaStep | syntax_processor_lexer.py:35 | a comma is one COMMA token |
| LexerFacts.CommaScan | syntax_processor_lexer.py:35 | a comma puts one COMMA token in front of the rest of the scan |
| LexerFacts.SingleDigitScan | syntax_processor_lexer.py:39-49 | a lone digit is the NUMBER of its value |
| LexerFacts.ScanBracketedList | syntax_processor_lexer.py:15-60 | "[8, 9]" scans to NUMBER 8, COMMA, NUMBER 9, with `[` and `]` logged |
| LexerFacts.ParenScan | syntax_processor_lexer.py:15 | `(` and `)` are each one literal token in front of the rest of the scan |
| LexerFacts.ScanPunctuation | syntax_processor_lexer.py:15-60 | a text of parentheses, commas, blanks, brackets and lone digits scans character by character: one token per parenthesis, comma and digit, one logged character per bracket |
| LexerFacts.ScanNestedList | syntax_processor_lexer.py:15-60 | "(([2, 3]))" scans to two LPAREN, NUMBER 2, COMMA, NUMBER 3 and two RPAREN, with `[` and `]` logged |
| LexerFacts.ScanEmptyNestedCall | syntax_processor_lexer.py:15-25 | "f(())" scans to ID f, two LPAREN and two RPAREN |
| LexerFacts.ScanNestedCall | syntax_processor_lexer.py:15-49 | "f((1, 2))" scans to ID f, two LPAREN, NUMBER 1, COMMA, NUMBER 2 and two RPAREN |
| LexerFacts.IdentifierScan | syntax_processor_lexer.py:25 | a word to the end of the text that starts no keyword is one ID token |
| LexerFacts.ScanGreedyIdentifier | syntax_processor_lexer.py:25 | "AAA_Bbb_@" is one ID |
| LexerFacts.ScanKeywordPrefix | syntax_processor_lexer.py:24-25 | "index" is IN followed by the ID "dex" |
| LexerFacts.ScanInPrefixedWord | syntax_processor_lexer.py:24-25 | a word starting with `in` gives IN and then an ID for the rest of the word |
| LexerFacts.StepCountsNewlines | syntax_processor_lexer.py:54-56 | every step raises the line number by exactly the newlines it consumes |
| LexerFacts.ScanCountsLines | syntax_processor_lexer.py:54-56 | a scan's final line is the starting line plus the newlines of the scanned text |
| LexerFacts.ScanLineCount | syntax_processor_lexer.py:54-56 | a tokenize call ends on line 1 plus the number of newlines |
| LexerFacts.StepToken | syntax_processor_lexer.py:39-49 | a step's token is on the step's line, and a NUMBER token is never negative |
| LexerFacts.ScanOutputBound | syntax_processor_lexer.py:58-60 | a scan yields at most one token or error per character |
| LexerFacts.ScanTokensInOrder | syntax_processor_lexer.py:54-56 | line numbers of successive tokens never decrease and stay between the first and the final line |
| LexerFacts.ScanNumbersNonNegative | syntax_processor_lexer.py:39-49 | every NUMBER token of a scan is non-negative |
| Values.PyEqReflexive | syntax_processor_parser.py:86-88 | every value equals itself under Python's `==` |
| Values.PyEqSymmetric | syntax_processor_parser.py:86-88 | Python's `==` on these values is symmetric |
| Values.PyEqTransitive | syntax_processor_parser.py:86-88 | Python's `==` on these values is transitive |
| Values.BoolEqualsItsInt | syntax_processor_parser.py:86-88 | `True == 1` and `False == 0` hold, yet the bool and the int are different values |
| Values.PyEqNumericTruthy | syntax_processor_parser.py:102-112 | equal numbers are equally truthy |
| Actions.Repeat | syntax_processor_parser.py:70-72 | a list times `n` is `n` copies of it, and empty for `n` below one |
| Actions.Plus | syntax_processor_parser.py:62-64 | numbers add as integers, bools counting 1 or 0; lists concatenate |
| Actions.Minus | syntax_processor_parser.py:66-68 | the difference plus the subtrahend is the minuend |
| Actions.Times | syntax_processor_parser.py:70-72 | numbers multiply as integers; a list times a number, or a number times a list, repeats the list |
| Actions.Divide | syntax_processor_parser.py:74-76 | for an exact quotient, the quotient times the divisor is the dividend |
| Actions.Negate | syntax_processor_parser.py:114-116 | the negation plus the operand is zero |
| Actions.Gt | syntax_processor_parser.py:78-80 | a bool that holds when the first integer value is larger |
| Actions.Lt | syntax_processor_parser.py:82-84 | a bool that holds when the first integer value is smaller |
| Actions.Eq | syntax_processor_parser.py:86-88 | a bool that holds when Python's `==` holds |
| Actions.Ne | syntax_processor_parser.py:90-92 | a bool that holds when Python's `==` does not |
| Actions.Ge | syntax_processor_parser.py:94-96 | a bool that holds when the first integer value is at least the second |
| Actions.Le | syntax_processor_parser.py:98-100 | a bool that holds when the first integer value is at most the second |
| Actions.And | syntax_processor_parser.py:102-104 | a bool that holds when both operands are truthy |
| Actions.Or | syntax_processor_parser.py:106-108 | a bool that holds when either operand is truthy |
| Actions.Not | syntax_processor_parser.py:110-112 | a bool that holds when the operand is not truthy |
| Actions.Contains | syntax_processor_parser.py:38-40 | found exactly when some element equals the value |
| Actions.In | syntax_processor_parser.py:38-40 | a bool that holds exactly when some element of the list equals the value |
| Actions.Arglist | syntax_processor_parser.py:46-48 | the first value, then the others, in order |
| Actions.Parenthesized | syntax_processor_parser.py:42-44 | the inner list unchanged, or nothing exactly when the parentheses are empty |
| Actions.Call | syntax_processor_parser.py:30-32 | the pair of the name and the argument list, or of the name and None |
| ActionFacts.MinusUndoesPlus | syntax_processor_parser.py:62-68 | `(a + b) - b == a`; `a - b == a + (-b)`; `+` commutes on numbers |
| ActionFacts.DivideUndoesTimes | syntax_processor_parser.py:70-76 | `(a * b) / b` is exact and equals `a` for a non-zero `b` |
| ActionFacts.RepeatLength | syntax_processor_parser.py:70-72 | a list repeated `n` times has `n` times its length |
| ActionFacts.NegateTwice | syntax_processor_parser.py:114-116 | `--a` is the integer value of `a`, so `--True` is 1 |
| ActionFacts.ComparisonDuality | syntax_processor_parser.py:78-100 | `>` mirrors `<` and `>=` mirrors `<=`; `>=` is not-`<`, `<=` is not-`>`, `!=` is not-`==` |
| ActionFacts.Trichotomy | syntax_processor_parser.py:78-88 | between numbers exactly one of `<`, `==`, `>` holds |
| ActionFacts.DeMorgan | syntax_processor_parser.py:102-112 | `not` exchanges `and` and `or`; `not not x` is `bool(x)`; `and` and `or` commute |
| ActionFacts.BoolsAreInts | syntax_processor_parser.py:62-88 | `True + True == 2`, `-True == -1`, `True < 3` and `True == 1`, while a comparison yields the bool itself |
| ActionFacts.ComparisonChains | syntax_processor_parser.py:82-100 | `(1 <= 2) < 3` is True and `(1 <= 2) > 3` is False |
| ActionFacts.InConcat | syntax_processor_parser.py:38-40 | a value is in a concatenation exactly when it is in either part |
| ActionFacts.InRespectsEquality | syntax_processor_parser.py:38-40 | equal values are in the same lists, so `True in [1]` holds |
| ActionFacts.InElements | syntax_processor_parser.py:38-40 | every element of a list is in it, and nothing is in the empty list |
| ActionFacts.InSmallList | syntax_processor_parser.py:38-40 | `2 in [2, 3]` and `3 in [2, 3]` hold, `4 in [2, 3]` does not |
| Parser.Lookup | syntax_processor_parser.py:118-124 | a bound name gives its value and reports nothing; an unbound one gives 0 and reports the name |
| Parser.Precedence | syntax_processor_parser.py:13-20 | the levels of the table, loosest first; the grouping they imply is stated by `Expressions.ParsePrinted` |
| Parser.ApplyBinaryVerdict | syntax_processor_parser.py:62-108 | each binary action's value where Python computes one; a bool from every numeric comparison; ZeroDivision for a zero divisor; TypeError exactly when Python raises it |
| Parser.ApplyNegate | syntax_processor_parser.py:114-116 | numbers are negated; anything else is a TypeError |
| Parser.ParseOperand | syntax_processor_parser.py:54-60 | an operand ends inside the input, after its first token when it yields a value |
| Parser.ParseGroup | syntax_processor_parser.py:54-56 | a parenthesised expression ends inside the input, after its `(` when it yields a value |
| Parser.ParsePrefix | syntax_processor_parser.py:110-116 | a prefix expression ends inside the input, after its operator when it yields a value |
| Parser.ParseExpr | syntax_processor_parser.py:13-20 | an expression ends inside the input, after its first token when it yields a value |
| Parser.ParseTail | syntax_processor_parser.py:13-20 | operators are applied until the next token is not an operator of the required level or tighter |
| Parser.FaultAt | syntax_processor_parser.py:126-127 | a syntax error is reported at the position where the phrase stopped |
| Parser.ParseItems | syntax_processor_parser.py:46-48 | a comma-separated run yields at least one value and stops where no comma follows |
| Parser.ParseParenArgs | syntax_processor_parser.py:42-48 | a parenthesised argument list, whether empty, around another such list, or around items, spans at least its two parentheses |
| Parser.StatementStart | syntax_processor_parser.py:26-36 | where the expressions of a statement begin |
| Parser.ParseStatement | syntax_processor_parser.py:26-52 | only an assignment binds: it has no result and binds the name of its first token |
| Parser.ParseAssignment | syntax_processor_parser.py:26-28 | an assignment succeeds exactly when it binds, and then it binds its first token's name and has no result |
| Parser.ParseCall | syntax_processor_parser.py:30-32 | a call binds nothing and yields a pair whose name is its first token's |
| Parser.ParseParenList | syntax_processor_parser.py:42-44 | a parenthesised list binds nothing |
| Parser.ParseArglist | syntax_processor_parser.py:34-36 | an expression statement or list binds nothing and has a result when it succeeds |
| Parser.UndefinedRecords | syntax_processor_parser.py:123 | one `undefined` record per reported name, in order |
| Parser.ProcessorParser.constructor | syntax_processor_parser.py:22-24 | a new parser has no names and no errors |
| Parser.ProcessorParser.Assign | syntax_processor_parser.py:26-28 | the name is bound to the value and the other names are unchanged |
| Parser.ProcessorParser.LookupId | syntax_processor_parser.py:118-124 | a bound name yields its value and logs nothing; an unbound one yields 0 and appends one `undefined` record |
| Parser.ProcessorParser.Error | syntax_processor_parser.py:126-127 | the offending token, or None at the end of input, is appended to `errors` |
| Parser.ProcessorParser.Parse | syntax_processor_parser.py:22-127 | the result is `ParseStatement`'s; `errors` gains the undefined names, then the token of a syntax error; `names` changes only by an assignment's binding |
| ParserFacts.IdLog | syntax_processor_parser.py:118-124 | what an ID token reports is what the lookup reports |
| ParserFacts.UndefinedInSplit | syntax_processor_parser.py:118-124 | the names reported by adjacent stretches of tokens add up |
| ParserFacts.UndefinedInNames | syntax_processor_parser.py:118-124 | a name is reported exactly when it is unbound and some ID token in the stretch names it |
| ParserFacts.OperandLog | syntax_processor_parser.py:54-124 | an operand reports the unbound names of the ID tokens it covers, in order |
| ParserFacts.GroupLog | syntax_processor_parser.py:54-56 | a parenthesised expression reports the unbound names it covers, in order |
| ParserFacts.PrefixLog | syntax_processor_parser.py:110-116 | a prefix expression reports the unbound names it covers, in order |
| ParserFacts.ExprLog | syntax_processor_parser.py:62-124 | an expression reports the unbound names it covers, in order |
| ParserFacts.TailLog | syntax_processor_parser.py:62-108 | the operators and operands after a value report the unbound names they cover, in order |
| ParserFacts.ItemsLog | syntax_processor_parser.py:46-48 | a comma-separated run reports the unbound names it covers, in order |
| ParserFacts.ParenArgsLog | syntax_processor_parser.py:42-44 | a parenthesised argument list reports the unbound names it covers, in order |
| ParserFacts.StatementLog | syntax_processor_parser.py:26-52 | a successful statement reports the unbound names of every ID token after its head, in order |
| ParserFacts.AssignmentLog | syntax_processor_parser.py:26-28 | a successful assignment reports the unbound names of its expression |
| ParserFacts.CallLog | syntax_processor_parser.py:30-32 | a successful call reports the unbound names of its arguments |
| ParserFacts.ParenListLog | syntax_processor_parser.py:42-44 | a successful parenthesised list reports the unbound names it covers |
| ParserFacts.ArglistLog | syntax_processor_parser.py:34-36 | a successful expression statement or list reports the unbound names it covers |
| Expressions.Level | syntax_processor_parser.py:13-20 | the level at which a tree's top operator binds is at least 1 |
| Expressions.Grouped | syntax_processor_parser.py:13-20 | a tree whose every operand binds as the table requires is well formed |
| Expressions.Operand | syntax_processor_parser.py:54-56 | an operand wrapped in parentheses where needed binds at the level asked for |
| Expressions.Bracket | syntax_processor_parser.py:54-56 | placing parentheses does not change a tree's level |
| Expressions.BracketGrouped | syntax_processor_parser.py:13-20 | with parentheses placed, every tree is grouped as the table requires and keeps its value |
| Expressions.BracketKeepsGrouped | syntax_processor_parser.py:13-20 | a tree already grouped as the table requires gets no new parentheses |
| Expressions.ParseShown | syntax_processor_parser.py:13-124 | parsing a grouped tree's tokens, followed by a looser operator or the end, gives the tree's value and goes on after it |
| Expressions.OperandShown | syntax_processor_parser.py:54-116 | an atom, group or prefix expression parses as one operand with the tree's value |
| Expressions.GroupShown | syntax_processor_parser.py:54-56 | a parenthesised tree parses to the inner tree's value |
| Expressions.UnaryShown | syntax_processor_parser.py:110-116 | `-x` and `not x` parse to the negation of `x`'s value |
| Expressions.BinaryShown | syntax_processor_parser.py:62-108 | a binary tree parses to its operator applied to its operands' values, left operand first |
| Expressions.ParseTrailing | syntax_processor_parser.py:13-124 | a grouped tree printed at the end of the input parses to its value, consuming the rest of the input |
| Expressions.ParseGrouped | syntax_processor_parser.py:13-124 | a grouped tree's printed tokens parse to its value, consuming all of them |
| Expressions.ParsePrinted | syntax_processor_parser.py:13-124 | any tree, printed with parentheses where `Grouped` requires them, parses to its value. `Grouped` also puts parentheses in `- -x` and `not not x`, which the table does not need. A negative constant prints as a NUMBER token of negative value, which the lexer never emits |
| Statements.PlainStatement | syntax_processor_parser.py:50-52 | an expression that fills the statement gives the statement its value or fault, and nothing is bound |
| Statements.NotParenList | syntax_processor_parser.py:42-56 | a printed expression is never taken for a parenthesised list, even when it starts with `(` |
| Statements.PrintedStatement | syntax_processor_parser.py:50-52 | any printed expression as a statement yields the tree's value or fault, binds nothing, and reports the unbound names of its ID tokens in order |
| Statements.AssignPrinted | syntax_processor_parser.py:26-28 | `x = e` has no result and binds `x` to `e`'s value; when `e` faults, the statement has that fault and binds nothing |
| Statements.ReadName | syntax_processor_parser.py:118-124 | the statement `x` yields `x`'s value and reports nothing, or yields 0 and reports `x` when it is unbound |
| Statements.AssignThenRead | syntax_processor_parser.py:26-28 | after `x = e`, the statement `x` on the updated names yields `e`'s value and reports nothing |
| Statements.Arithmetic | syntax_processor_parser.py:13-72 | `3 + 4 * (5 + 6)` is 47; `a = 3 + 4 * (5 + 6)` binds `a` to 47; then `a` reads 47 |
| Statements.NegativeMinus | syntax_processor_parser.py:114-116 | `-5 - 10` is -15 |
| Statements.MinusNegative | syntax_processor_parser.py:114-116 | `-5 - -10` is 5 |
| Statements.MinusGroupedNegative | syntax_processor_parser.py:54-56 | `-5 - (-10)` is 5 |
| Statements.ChainedLess | syntax_processor_parser.py:17 | `1 <= 2 < 3` is True |
| Statements.ChainedGreater | syntax_processor_parser.py:17 | `1 <= 2 > 3` is False |
| Statements.ParenthesisedComparison | syntax_processor_parser.py:54-56 | `(1 + 4) > (4 + 0)` is True |
| Statements.NotOfGroup | syntax_processor_parser.py:110-112 | `not (5 < 4)` is True |
| Statements.NotBelowComparison | syntax_processor_parser.py:16-17 | `not 5 < 4` is `not (5 < 4)`, which is True |
| Statements.TwoItems | syntax_processor_parser.py:46-48 | the tokens `8 , 9` are the list [8, 9] |
| Statements.BracketedList | syntax_processor_parser.py:34-48 | the text "[8, 9]" logs both brackets in the lexer and parses to the list [8, 9] |
| Lists.EvalItemsValues | syntax_processor_parser.py:46-48 | a list of trees has a value exactly when every tree has one, and then holds the trees' values in order; otherwise its fault is that of the first tree with a fault |
| Lists.ItemsShown | syntax_processor_parser.py:46-48 | printed trees separated by commas, followed by the end or by a token that is neither an operator nor a comma, parse as an arglist to the trees' values in order, consuming all their tokens, or to the first tree's fault |
| Lists.NestList | syntax_processor_parser.py:42-44 | a list of trees in parentheses, inside further pairs, whose first tree has a value, is taken for a parenthesised list |
| Lists.NestErr | syntax_processor_parser.py:42-56 | the same nest whose first tree faults is not taken for a parenthesised list, and as an expression it has that fault |
| Lists.ParenArgsParse | syntax_processor_parser.py:42-48 | a parenthesised list of trees, inside any number of further pairs (with two or more trees then), yields the trees' values or the first fault, and ends after its last `)` |
| Lists.EmptyArgs | syntax_processor_parser.py:42-44 | `()` inside any number of further pairs is a parenthesised list with no items, ending after its last `)` |
| Lists.ItemsStatement | syntax_processor_parser.py:34-48 | two or more printed trees separated by commas are a statement whose result is the list of their values, or the first fault, and which binds nothing |
| Lists.ParenListStatement | syntax_processor_parser.py:34-48 | two or more printed trees in parentheses, inside any number of further pairs, give the same result as the bare list, and bind nothing |
| Lists.CallStatement | syntax_processor_parser.py:30-48 | `f` followed by printed trees in parentheses (inside further pairs when there are two or more trees) pairs `f` with the list of their values, or has the first fault, and binds nothing |
| Lists.EmptyListStatement | syntax_processor_parser.py:34-44 | `()` inside any number of further pairs is a statement with no result that binds nothing |
| Lists.EmptyCallStatement | syntax_processor_parser.py:30-44 | `f()`, `f(())` and so on pair `f` with None and bind nothing |
| Lists.NestedList | tests.py:464-466 | the text "(([2, 3]))" logs both brackets in the lexer and parses to the list [2, 3] |
| Lists.EmptyNestedCall | syntax_processor_parser.py:30-44 | the text "f(())" scans with no error and parses to the pair `('f', None)` |
| Lists.NestedCall | syntax_processor_parser.py:30-48 | the text "f((1, 2))" scans with no error and parses to the pair `('f', [1, 2])` |

## Left out

- The `sly` machinery is not part of this model: LALR table construction, the driver loop and its error recovery. The model parses a statement by precedence climbing and stops at the first syntax error. It records that error once, through `error`. sly would discard tokens, resynchronise, and may report a different number of errors.
- `==` and `!=` have no level in the precedence table, so how they group is decided by the generator's defaults. `in` has a level, that of the comparisons (syntax_processor_parser.py:17). But its right operand is an arglist, and the table gives no level to the COMMA or to the `"(" [ arglist ] ")"` that may follow IN, so how the arglist after IN ends is decided by the generator's defaults too. The evaluator stops at EQ, NE and IN with the `Unmodelled` fault. Their actions (`Actions.Eq`, `Actions.Ne`, `Actions.In`) are modelled and proved on values.
- Parser.ParseStatement: a lone expression yields its value, and several comma-separated expressions yield a list, as the repository's tests observe. The grammar leaves this to a reduce/reduce choice of the generator, which is not modelled.
- Actions.Divide: `/` yields a float in Python, and the model has no floats. It computes `/` only for an exact quotient, as that quotient's int. Python's float has the same value only when the quotient is a double: every int up to 2^53 in magnitude is, but `9007199254740993 / 1` is `9007199254740992.0`. Past the double range, as in `10**400 / 1`, Python raises OverflowError, while the model still gives the int. Any inexact quotient is `Unmodelled`.
- Parser.ProcessorParser.Parse: `errors` can gain `undefined` records for names that sly never looks up. sly looks an ID up only when it reduces the ID to an expression, and it reduces only on a token that may follow one. The model reads every operand before it meets the first syntax error. So for `a 123 4 + 5` the model logs `('undefined', 'a')` before the NUMBER 123, while sly logs only the NUMBER (tests.py:63-67 expect exactly one error).
- Python exceptions raised inside an action become faults: a TypeError (for example `[1] < 2`) and a division by zero. sly would abort the parse with the exception. The model's `Parse` still appends the undefined names read before the fault and binds nothing.
- Python's `<` and `>` between lists or tuples compare lexicographically. These, and `list + tuple`-style mixes Python accepts for tuples, give `Unmodelled`.
- Tokens are delivered eagerly. In the source, the lexer runs lazily as the parser pulls tokens, so lexer errors interleave with parsing. Here `Tokenize` runs to the end first, and the lexer's and the parser's error lists are separate.
- Token fields other than type, value and line (`index`, `end`) are filled in by the library and are not modelled.
- Lexer.MatchNumber: `\d` is taken as the ASCII digits only. Python's `\d` on a `str` also accepts other Unicode decimal digits.
- `tokenize` restarts at index 0 on line 1 on every call, as sly does. The model does not represent sly's optional starting line and index.
- Printing, I/O and the pytest harness (tests.py) are not modelled. Statements of the tests appear only as lemmas in the Statements module.
- The tests whose outcome depends on sly's error recovery, or on the grouping of `==`, `!=` and `in`, are not restated.
