# parser.py: a verified model of its lexer and recognizer

`parser.py` checks one line of text against the grammar

    <assignment-statement> -> <identifier> = <term> {<operator> <term>}
    <term>                 -> <identifier> | <numerical-literal>

Two objects do the work:

- A `LexicalAnalyzer` hands out one token at a time. It keeps a cursor into the line (`line`, `nextChar`, `charClass`), the token last assembled (`nextToken`, `lexeme`), a column counter `errorPos` and an audit log `output`.
- A `SyntaxAnalyzer` drives that lexer by recursive descent. It appends every syntax error to `errorsFound`, together with a caret line that points at the offending lexeme.

This project models both classes in Dafny.

## Modules

- `tokens.dfy` (module `Tokens`)
  - The `Token` enumeration.
  - `isalpha` and `isdigit`.
  - The operator table of `LexicalAnalyzer.operators`.
  - The character class that `getChar` assigns.
  - The mapping used by `lookup`.
  - The lexeme shapes that `lex` can produce.
- `lexer.dfy` (module `Lexer`)
  - The value `LexState`, holding the seven fields of a `LexicalAnalyzer`.
  - One function per step of the source: `ReadChar` (getChar), `SkipBlanks` (getNonBlank), `ScanWhile` (the scanning loops), `Dispatch` (the `match` of lex), `Logged` (the audit step) and `LexToken` (lex).
  - The class `LexicalAnalyzer`. Its fields are updated in place, just as the source updates them. Each method is proved to move `State()` exactly as the corresponding function says.
- `lexer_facts.dfy` (module `LexerFacts`): what `lex` guarantees. It covers:
  - the lexeme shapes;
  - the column count;
  - EOL being sticky;
  - reaching EOL within `|line| + 1` calls;
  - the audit log spelling the line without its spaces.
- `syntax.dfy` (module `Syntax`)
  - The value `ParseState` (the lexer plus `errorsFound`).
  - One function per method of `SyntaxAnalyzer`.
  - The class `SyntaxAnalyzer`, whose methods are proved to follow those functions.
  - Termination of `assignment_statement`'s `while True` loop: each round either breaks or consumes input.
- `syntax_facts.dfy` (module `SyntaxFacts`)
  - The outcome of each recognizer method: which errors it records and how many tokens it lexes.
  - The layout of an error record.
  - `AnalyzeSound`: for every line, the analysis reads the line to its end. The errors come out in strictly increasing position, and each error names the text that stands in the line at its position (or names the `EOL` sentinel at or past the end).
- `grammar.dfy` (module `Grammar`): which lines the recognizer accepts.
  - `Statement` states the grammar on the audit log: an identifier, `=`, then terms separated by the five operators. A term is an identifier, or a numerical literal with an optional sign whose lexeme passes the test of `numerical_literal`.
  - `AnalyzeDecides`: for every line, the analysis records no error exactly when the log of the line is a `Statement`.
  - `AnalyzeSpellsLine`: for every line, the lexemes of the log spell the line with its spaces removed.
- `scenarios.dfy` (module `Scenarios`): five lines worked out end to end.
  - `x = 1` and `total = a + 2.5 * b` draw no error.
  - `x = 1.` draws exactly one error: "invalid numerical literal" at position 4, with caret line `"    ^^"`.
  - `x = 1 + + 2` draws no error.
  - `x 1` draws two errors.

## Behaviour of the code that the grammar comments do not suggest

The model follows the code in all of these cases.

- **A leading digit does not make an invalid identifier.** `lex` splits `1x` into the numeric literal `1` and the identifier `x`.
  - So `1x = 2` reports "invalid identifier" on the lexeme `1`, not on `1x`.
  - It then reports "expected an assignment operator" on `x`.
- **A second sign is accepted.** `numerical_literal` accepts a `+` or `-` as a sign wherever a term is expected. So `x = 1 + + 2` draws no error (`AcceptsSecondSign`).
- **The sign is counted after the next lex.** `numerical_literal` counts the sign's column only after it has lexed the token that follows it. This is why the positional lemmas carry an offset `d`.
- **`x 1` draws two errors, not one.**
  - "expected an assignment operator" on `1` at position 2.
  - Then "expected an identifier or numerical-literal" on `EOL` at position 3.
  - `RejectsMissingAssignment` states both errors.
- **On an empty line, `identifier` accepts the sentinel lexeme `EOL`.** It adds 3 to `errorPos`. `main` skips empty lines, but `Analyze("")` is still defined and covered by `AnalyzeSound`.
- **`identifier` uses `str.isalnum`, which accepts non-ASCII letters and digits.** `identifier` itself runs on the first token of the line whatever its kind: `+`, `1.5`, `é`, or the sentinel `EOL`. But the `or` in its test short-circuits. `isalnum` is evaluated only in two cases:
  - on a first character that has already passed the ASCII `isalpha`;
  - on a later character of a lexeme whose first character passed it.

  A lexeme that starts with an ASCII letter is an identifier lexeme or `EOL`, so all its characters are ASCII. The ASCII `IsAlnum` of the model therefore gives the same answers as `str.isalnum` on every character where the code evaluates it.

## Model

| member | source | states |
|---|---|---|
| Tokens.IsAlphaSpec | parser.py:7-8 | the ASCII range test agrees with membership in the 52-letter alphabet string of isalpha |
| Tokens.IsDigitSpec | parser.py:10-11 | the range test agrees with membership in the digit string of isdigit |
| Tokens.OperatorTableSpec | parser.py:24-25 | the table maps exactly `+`, en dash, `-`, `*`, `/`, `%`, and its values are exactly the five operator kinds |
| Tokens.ClassOfCharSpec | parser.py:45-54 | a read character is classed Letter iff isalpha, Digit iff isdigit, Decimal iff it is `.`, and Unknown otherwise |
| Tokens.CharClassSpec | parser.py:45-46 | the class is EOL exactly when no character is pending |
| Tokens.LookupKindSpec | parser.py:27-35 | lookup gives `+` AddOp, `-` and en dash SubOp, `*` MultOp, `/` DivOp, `%` ModOp, `=` AssignOp, and Unknown to anything else; the kind is an operator kind iff the character is in the table |
| Lexer.ReadCharSpec | parser.py:37-54 | getChar loses no input (the pending character followed by the new line is the old line), reports EOL exactly when the line was empty, classifies the character it read, and leaves lexeme, token, errorPos and log alone |
| Lexer.Start | parser.py:14-22 | after __init__ the whole line is unread, errorPos is 0, and the log is empty |
| Lexer.SkipBlanks | parser.py:56-59 | getNonBlank stops on a character that is not a space |
| Lexer.ScanWhile | parser.py:70-72 | a scanning loop stops on a character whose class is not in the loop's set |
| Lexer.LexicalAnalyzer.constructor | parser.py:14-22 | __init__ leaves the analyzer in the state Start(line) |
| Lexer.LexicalAnalyzer.Lookup | parser.py:27-35 | lookup appends the pending character to the lexeme, sets nextToken from the table, and returns it |
| Lexer.LexicalAnalyzer.GetChar | parser.py:37-54 | the in-place getChar moves the state as ReadChar does |
| Lexer.LexicalAnalyzer.GetNonBlank | parser.py:56-59 | the loop of getNonBlank moves the state as SkipBlanks does |
| Lexer.LexicalAnalyzer.AddAndRead | parser.py:68-69 | `lexeme += nextChar` followed by getChar |
| Lexer.LexicalAnalyzer.LexIdentifier | parser.py:67-73 | the LETTER arm of lex, with its loop, moves the state as ScanIdent does |
| Lexer.LexicalAnalyzer.LexNumber | parser.py:75-87 | the DIGIT arm, with its two loops and the optional `.`, moves the state as ScanNumber does |
| Lexer.LexicalAnalyzer.LexBranch | parser.py:65-95 | the match of lex moves the state as Dispatch does |
| Lexer.LexicalAnalyzer.Lex | parser.py:61-99 | lex moves the state as LexToken does and returns the new nextToken |
| LexerFacts.SkipBlanksFrame | parser.py:56-59 | getNonBlank changes neither lexeme, token nor log |
| LexerFacts.SkipBlanksCount | parser.py:56-59 | getNonBlank adds to errorPos exactly the number of spaces that open the unread text |
| LexerFacts.SkipBlanksText | parser.py:56-59 | getNonBlank removes exactly that run of spaces from the unread text |
| LexerFacts.ScanWhileFrame | parser.py:70-72 | the scanning loops change neither errorPos, log nor token |
| LexerFacts.AddCharText | parser.py:68-69 | addChar then getChar moves one character from the unread text onto the lexeme |
| LexerFacts.ScanWhileText | parser.py:70-72 | a scanning loop moves characters from the unread text onto the lexeme, in order, losing none |
| LexerFacts.ScanWhileClasses | parser.py:78-80 | the lexeme only grows, and every character a loop appends has a class in the loop's set |
| LexerFacts.ScanIdentShape | parser.py:67-73 | the LETTER arm yields a letter followed by letters and digits |
| LexerFacts.ScanDigits | parser.py:75-80 | the DIGIT arm's first loop yields one or more digits |
| LexerFacts.FractionShape | parser.py:81-86 | digits, then `.`, then the fraction loop yield a literal with exactly that one `.` |
| LexerFacts.ScanNumberShape | parser.py:75-87 | the DIGIT arm yields a digit, then digits with at most one `.` |
| LexerFacts.ScanNumberText | parser.py:75-87 | the DIGIT arm takes its lexeme off the front of the unread text and leaves errorPos and log alone |
| LexerFacts.ScanIdentText | parser.py:67-73 | the LETTER arm takes its lexeme off the front of the unread text and leaves errorPos and log alone |
| LexerFacts.SkipBlanksNoSpaces | parser.py:56-59 | skipping blanks loses nothing but spaces |
| LexerFacts.DispatchShape | parser.py:65-95 | after the match, the lexeme has the shape of its token: an identifier, a numeric literal, one non-space character that lookup maps onto the token, or "EOL" |
| LexerFacts.DispatchFrame | parser.py:65-95 | the match changes neither errorPos nor log |
| LexerFacts.DispatchText | parser.py:65-95 | the match yields EOL iff nothing is left to read; any other token is taken off the front of the unread text |
| LexerFacts.LexLexemeShape | parser.py:61-99 | after lex, the lexeme is non-empty and has the shape of the token produced |
| LexerFacts.LexEol | parser.py:89-91 | lex returns EOL iff only spaces were left, and the line is then used up |
| LexerFacts.LexConsumes | parser.py:61-95 | a token other than EOL consumes at least one character |
| LexerFacts.LexColumns | parser.py:61-95 | lex adds the skipped spaces to errorPos, and the token stands right after them in the unread text |
| LexerFacts.LexCount | parser.py:61-63 | lex adds to errorPos exactly the spaces it skips |
| LexerFacts.LexLogEntry | parser.py:97-98 | lex appends exactly one (kind, lexeme) entry per token other than EOL, and none for EOL |
| LexerFacts.LexemeHasNoSpaces | parser.py:61-95 | a lexeme of any shape lex gives to a token other than EOL contains no space |
| LexerFacts.LexEolSticky | parser.py:89-91 | once the line is used up, lex returns EOL again and changes neither errorPos nor log |
| LexerFacts.LexSpellsLexeme | parser.py:61-95 | a token other than EOL is the next non-space stretch of the unread text |
| LexerFacts.LexLogSpells | parser.py:97-98 | the log followed by the unread text without spaces stays the same across lex |
| LexerFacts.LexStep | parser.py:61-99 | each lex either ends the line or consumes a character |
| LexerFacts.LexRun | parser.py:61-99 | the states of a caller that calls lex n times, each following from the one before |
| LexerFacts.LexReachesEol | parser.py:61-99 | more calls of lex than characters left always end at EOL with the line used up |
| LexerFacts.LexRunSpells | parser.py:97-98 | the spelling invariant holds over any number of calls of lex |
| LexerFacts.LexEolStays | parser.py:89-98 | after EOL every further call returns EOL and logs nothing |
| LexerFacts.SpelledStart | parser.py:14-22 | before the first lex, nothing is logged and the whole line is unread |
| LexerFacts.LogSpellsLine | parser.py:61-99 | after \|line\|+1 calls, lex has returned EOL, and the logged lexemes spell the line with its spaces removed |
| Syntax.DecimalText | parser.py:176 | the position in the message is written in decimal digits whose value is the position, with no leading zero |
| Syntax.AdvanceNoGrow | parser.py:120 | lex never lengthens the unread text, and it stays at EOL |
| Syntax.TermNoGrow | parser.py:122-128 | the term branch never lengthens the unread text, and at EOL it stays there |
| Syntax.RoundShrinks | parser.py:119-131 | a round of the `while True` loop either breaks or consumes input, so the loop terminates |
| Syntax.SyntaxAnalyzer.constructor | parser.py:102-107 | __init__ lexes once and runs assignment_statement on an empty error list |
| Syntax.SyntaxAnalyzer.AssignmentStatement | parser.py:109-131 | assignment_statement: an identifier, `=` or an error, then rounds until one breaks |
| Syntax.SyntaxAnalyzer.Pass | parser.py:119-131 | one pass of the loop: lex, a term, operators; the result tells whether the loop goes on |
| Syntax.SyntaxAnalyzer.ParseTerm | parser.py:122-128 | the branch of the loop: identifier, numerical_literal, or an error followed by one lex |
| Syntax.SyntaxAnalyzer.Identifier | parser.py:133-142 | identifier's loop finds the first bad character or runs out; the method then reports or counts, and lexes once |
| Syntax.SyntaxAnalyzer.NumericalLiteral | parser.py:144-156 | numerical_literal: the sign, then the loop's test, then a report or the count, then one lex |
| Syntax.SyntaxAnalyzer.SkipSign | parser.py:145-147 | on `+` or `-`, lex once and then count one column |
| Syntax.SyntaxAnalyzer.Operators | parser.py:158-166 | operators returns and does what CheckOperator says |
| Syntax.SyntaxAnalyzer.Next | parser.py:120 | `self.lex.lex()` advances the shared lexer |
| Syntax.SyntaxAnalyzer.SkipColumns | parser.py:117 | `self.lex.errorPos += n` changes nothing else |
| Syntax.SyntaxAnalyzer.AddError | parser.py:168-176 | addError appends the record that Report describes and moves errorPos past the token |
| Syntax.Analyze | parser.py:102-107 | a SyntaxAnalyzer built on a fresh lexer: one lex, then assignment_statement on an empty error list; the lexer's cursor stays well formed (what the result means is stated by AnalyzeSound, AnalyzeDecides and AnalyzeSpellsLine) |
| SyntaxFacts.MessageDetermines | parser.py:176 | the message text addError formats identifies the error: two errors with the same message have the same reason, position and lexeme |
| SyntaxFacts.ReportSpec | parser.py:168-176 | addError appends exactly one record (reason, the current errorPos, the current lexeme); the caret line is spaces up to the position and then carets; the caret length is the lexeme's length, or 1 at EOL; errorPos grows by that length; nothing else changes |
| SyntaxFacts.IdentOkIff | parser.py:135-139 | identifier's loop runs through iff the lexeme is empty or is a letter followed by letters and digits |
| SyntaxFacts.NumOkIff | parser.py:149-153 | numerical_literal's loop runs through iff the lexeme is empty, or is made of digits and dots and ends in a digit |
| SyntaxFacts.ShapedTermsChecked | parser.py:133-156 | every identifier lexeme passes identifier's test; a numeric literal lexeme passes iff it does not end in `.` |
| SyntaxFacts.LexedTermsChecked | parser.py:61-156 | the same holds for whatever lex assembles |
| SyntaxFacts.IdentifierOutcome | parser.py:133-142 | identifier records an invalid identifier iff its test fails, then lexes exactly one token, which is logged unless it is EOL; errorPos grows by the lexeme's length (or by the caret width after an error) plus the blanks lex skips |
| SyntaxFacts.SignOutcome | parser.py:145-147 | a leading `+` or `-` is lexed past and counted as one column after that lex; any other token is left alone |
| SyntaxFacts.NumberOutcome | parser.py:144-156 | numerical_literal records an invalid literal iff the lexeme after the sign fails the test, then lexes exactly one token; after the sign, errorPos grows by the lexeme's length (or by the caret width after an error) plus the blanks lex skips |
| SyntaxFacts.OperatorOutcome | parser.py:158-166 | operators answers true iff the token is one of the five operator kinds; on true or at EOL it only counts one column; otherwise it records a missing operator; it never lexes |
| SyntaxFacts.LexOnToken | parser.py:61-99 | lex from a state that tracks the line lands on a token standing in the line at errorPos (EOL: at or past the end) |
| SyntaxFacts.SkipBetween | parser.py:141 | counting the token's columns steps past it in the line |
| SyntaxFacts.ReportBetween | parser.py:168-176 | addError records a token that stands in the line at its position, after every earlier error, and then steps past it |
| SyntaxFacts.RoundBetween | parser.py:119-131 | one round keeps every error pointing at its token; the loop breaks only with the line used up |
| SyntaxFacts.HeadBetween | parser.py:112-117 | the identifier and the assignment check keep every error pointing at its token |
| SyntaxFacts.AnalyzeSound | parser.py:101-176 | for every line: the analysis ends at EOL with the line used up; error positions strictly increase; each error names the text of the line at its position, or EOL at or past the end |
| Grammar.IdentOkOnShape | parser.py:133-139 | on any token lex can produce, identifier's test passes exactly for an identifier or the EOL sentinel |
| Grammar.NumOkOnShape | parser.py:149-153 | on any token lex can produce, numerical_literal's test passes only for a numeric literal |
| Grammar.AdvanceLog | parser.py:97-99 | one lex logs exactly the entry of its token (none at EOL), records no error, leaves a lexeme of its token's shape, and stays at EOL once the line is used up |
| Grammar.IdentifierLog | parser.py:133-142 | identifier logs the one token it lexes and records an error exactly when its test fails |
| Grammar.SignLog | parser.py:145-147 | the sign of numerical_literal logs the token after it and records no error |
| Grammar.NumberBodyLog | parser.py:149-156 | numerical_literal after its sign logs the one token it lexes and records an error exactly when its test fails |
| Grammar.MissingTermLog | parser.py:126-128 | the loop's error branch always records an error and logs the one token it lexes |
| Grammar.TermDecides | parser.py:122-128 | the branch of the loop records no error and leaves the log going on with {operator term} exactly when what it logged, followed by the rest of the log, is an expression |
| Grammar.RoundDecides | parser.py:119-131 | one round records no error (and, if the loop goes on, the rest of the log is an expression) exactly when what the round logs, followed by that rest, is an expression; the loop goes on exactly when the round stops before EOL |
| Grammar.RoundsDecide | parser.py:119-131 | the whole loop records no error exactly when everything it logs is an expression |
| Grammar.RoundsAtEnd | parser.py:119-131 | started at the end of the line, the loop logs nothing |
| Grammar.HeadDecides | parser.py:112-117 | identifier plus the assignment check record no error (and the rest is an expression) exactly when the log starts with an identifier and `=` and goes on with an expression |
| Grammar.AnalyzeDecides | parser.py:102-166 | for every line: the analysis records no error exactly when the log of the line is an identifier, `=`, and an expression of terms and operators, each term an identifier or an optionally signed numeric literal that passes numerical_literal's test |
| Grammar.TermSpells | parser.py:122-128 | the branch of the loop keeps what the log and the unread text spell together |
| Grammar.RoundSpells | parser.py:119-131 | so does one round |
| Grammar.RoundsSpell | parser.py:119-131 | so does the whole loop |
| Grammar.HeadSpells | parser.py:112-117 | so do identifier and the assignment check |
| Grammar.AnalyzeSpellsLine | parser.py:97-98 | for every line, the lexemes logged during the analysis spell the line with its spaces removed |
| Scenarios.DispatchIdent | parser.py:67-73 | on a letter, lex reads the letters and digits up to the first other character |
| Scenarios.DispatchInteger | parser.py:75-87 | on a digit, lex reads the digits up to a character that is neither a digit nor `.` |
| Scenarios.DispatchDecimal | parser.py:75-87 | on a digit, lex reads the digits, one `.`, and the digits after it |
| Scenarios.AcceptsSimpleAssignment | parser.py:109-156 | `x = 1` draws no error; the log holds (IDENT, x), (ASSIGN_OP, =), (NUM_LIT, 1) |
| Scenarios.RejectsTrailingDot | parser.py:144-176 | `x = 1.` draws exactly one error: invalid numerical literal at position 4, got `1.`, caret line `"    ^^"`, with the message text as addError formats it |
| Scenarios.DotMessage | parser.py:176 | the message of that error reads `Syntax error: invalid numerical literal at position 4 (got: 1.)` followed by a newline |
| Scenarios.AcceptsExpression | parser.py:109-166 | `total = a + 2.5 * b` draws no error |
| Scenarios.AcceptsSecondSign | parser.py:119-166 | `x = 1 + + 2` draws no error, because the second `+` is read as the sign of `2`; the log holds all six tokens |
| Scenarios.RejectsMissingAssignment | parser.py:109-131 | `x 1` draws exactly two errors: a missing assignment operator on `1` at position 2 (caret line `"  ^"`), then a missing term on `EOL` at position 3 (caret line `"   ^"`) |

## Left out

- `main` (parser.py:178-223) is not modelled. It iterates over numbered input files, skips empty lines and writes the report file; the file system and console output are outside the model.
- `errorLinePerErrorFound` (parser.py:106) is not modelled. It is initialised and never read or written again.
- The audit log stores the `Token` value, not the enumeration member's `.name` string. The two determine each other.
- The errors record their reason, position, lexeme and caret line. `Syntax.Message` renders the first component of each `errorsFound` tuple from them. The Python tuple itself is not built.
- The integer 0 that `__init__` stores in `charClass` and `nextToken` is modelled as `Unknown`. Both fields are overwritten before they are read.
- Tokens.IsAlnum: models `str.isalnum` on ASCII only. Because of the short-circuit `or` in `identifier`'s test, `isalnum` is only evaluated on characters of lexemes that start with an ASCII letter, and those characters are all ASCII.
