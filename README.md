# Gorilla front end in Dafny

Gorilla is a small interpreted language written in Go. It has
`let` and `return` statements, `if`/`else` statements and blocks, and
prefix, infix and `x if c else y` expressions. It also has a
read-eval-print loop that can so far evaluate literals and `==`. This
project models the front end of that interpreter and proves properties
of the model:

- **Tokens** (`tokens.dfy`, package `token`). The token types, their
  string names and the keyword table.
- **LexSpec** (`lexspec.dfy`). What one call of the lexer returns, as a
  function `Scan` of the input and the cursor. The token stream
  `LexFrom` is the sequence of those calls.
- **Lexing** (`lexing.dfy`, package `lexer`). The lexer object, a cursor
  that moves over the input in place. Each of its methods is proved
  against `LexSpec`.
- **IntLiterals** (`intlit.dfy`). The conversion of integer literals
  (`strconv.ParseInt` with base 0 and 64 bits), and the decimal
  rendering of `fmt`'s `%d` and `strconv.Itoa`.
- **Ast** (`ast.dfy`, package `ast`). The syntax tree nodes, their
  getters and their printed form.
- **Precedences** (`precedences.dfy`, package `parser/precedences`). The
  operator ranks.
- **ParseSpec** (`parsespec.dfy`). What each parsing routine returns and
  the parser state it leaves, as functions over the token stream.
- **Parsing** (`parsing.dfy`, package `parser`). The parser object. It
  holds the lexer, a two-token window and an error list, all updated in
  place. Each method is proved to return exactly what the `ParseSpec`
  function of the same name returns.
- **Objects** (`objects.dfy`, package `object`). Runtime values.
- **Repl** (`repl.dfy`, package `repl`). The evaluator and the object
  comparison.
- **AsWritten** (`aswritten.dfy`). Two failure paths of the parser as
  the source writes them; see "## Findings".
- **Scenarios** (`scenarios.dfy`). Programs from the repository's parser
  and evaluator tests, parsed and evaluated by the model.

Modelling choices:

- A token type is a string constant in the source. Here it is a value of
  the newtype `TokenType`, and `TypeName` gives back the string.
- `AND` (`&&`) and `OR` (`||`) are read by the lexer
  (lexer/NexToken.go:80-99) and ranked by the precedence table
  (parser/precedences/precedences.go:32-33). They have no declaration in
  token/TokenType.go, so the model gives them their operators' spelling
  as their names.
- A parser state is `PState(k, errors)`. `k` is the index of the current
  token in the stream, which reads as EOF past its end, and `errors` is
  the error list.
- A routine returns `Ok(node)`, `Nil` (the source's nil or false result),
  or `Halted`. `Halted` covers three cases:
  - `Panic`: the `panic(p.errors)` of `raiseErrorAndPanic`.
  - `Hang`: `skipToSemicolon` when no `;` is left. The source loops
    forever there, because the lexer keeps returning EOF.
  - `Unmodelled`: the function-definition parser, which is not part of
    this model.
- The EOF token's literal is `"EOF"`, as lexer/NexToken.go:12-15 returns
  it. The lexer test at lexer/Lexer_test.go:46 expects an empty literal
  there; the model follows the code.
- A NUL byte inside the input reads as EOF. The deferred `readChar` still
  moves past it, so lexing resumes after it (`LexSpec.EmbeddedNulIsNotSticky`).
  Only at the real end of the input does EOF repeat.

## Model

| member | source | states |
|---|---|---|
| Tokens.TypeNameRoundTrip | token/TokenType.go:5-49 | reading a type's name back gives the type |
| Tokens.TypeNameInjective | token/TokenType.go:5-49 | distinct token types have distinct names |
| Tokens.GetTokenType | token/TokenType.go:61-66 | an exact keyword spelling gives its keyword type; anything else gives IDENT; the result is IDENT or a keyword type |
| Tokens.SingleLetterIsIdent | token/TokenType.go:51-66 | a one-letter name is never a keyword |
| Tokens.KeywordsInjective | token/TokenType.go:51-59 | distinct keyword spellings map to distinct types |
| Tokens.KeywordsAreCaseSensitive | token/TokenType.go:51-59 | `True`/`False` are keywords, `true`/`false`/`Let`/`IF` are identifiers |
| Tokens.NewToken | token/Token.go:8-13 | the token has the given type and the one byte as its literal |
| LexSpec.SkipSpace | lexer/Lexer.go:61-68 | the first position at or after the cursor that is not space, tab, newline or carriage return; every byte skipped is one of those |
| LexSpec.RunEnd | lexer/Lexer.go:35-59 | the end of the maximal run of letters (or digits) from the cursor: every byte before it is in the run and the byte at it is not |
| LexSpec.OperatorSpelling | lexer/NexToken.go:16-99 | an operator token other than ILLEGAL is spelled by the one or two bytes it was read from |
| LexSpec.Scan | lexer/NexToken.go:5-129 | one call moves the cursor past the skipped whitespace; it returns EOF exactly when the byte there is NUL; any other token ends inside the input |
| LexSpec.ScanPastEnd | lexer/NexToken.go:7-15 | past the end of the input a call returns EOF and moves the cursor by one |
| LexSpec.ScanLiteral | lexer/NexToken.go:101-127 | a token other than EOF and ILLEGAL has as its literal exactly the input bytes after the whitespace up to the new cursor, and no whitespace |
| LexSpec.OperatorLiteral | lexer/NexToken.go:16-99 | an operator read at a position is spelled by the input bytes there |
| LexSpec.RunHasNoSpace | lexer/Lexer.go:35-59 | a run is non-empty, inside the input, and free of whitespace |
| LexSpec.StreamAgrees | lexer/NexToken.go:5-15 | the n-th call from a cursor returns the n-th token of the stream; the cursor has reached the end exactly when the stream has fewer than n tokens |
| LexSpec.Advance | lexer/NexToken.go:5-15 | one more call returns the next token of the stream and the cursor after it |
| LexSpec.SpellingRoundTrip | lexer/NexToken.go:5-129 | on input without NUL bytes that lexes without ILLEGAL, the tokens' literals concatenated give back the input with its whitespace removed |
| LexSpec.LeadingSpaces | lexer/Lexer.go:61-68 | the skipped whitespace contributes nothing to the spelling |
| LexSpec.TokenSpelling | lexer/NexToken.go:101-127 | a token contributes its literal to the spelling, and lexing continues after it |
| LexSpec.EmbeddedNulIsNotSticky | lexer/NexToken.go:7-15 | `a NUL b` lexes as `a`, EOF, `b` |
| LexSpec.ScanSingleLetter | lexer/NexToken.go:101-107 | a lower-case letter before a NUL or the end is a one-letter identifier |
| LexSpec.EofSticksAtEnd | lexer/Lexer.go:16-25 | once the cursor is past the end, every call returns EOF and moves it by one |
| LexSpec.LexFrom | lexer/NexToken.go:5-15 | the token stream of the calls that start inside the input; empty from the end on |
| LexSpec.TwoCharOperators | lexer/NexToken.go:16-99 | `!=`, `<=` and `&&` are read only when their bytes are adjacent; `! =` is BANG and a lone `&` is ILLEGAL |
| LexSpec.IsValidLetter | lexer/Lexer.go:43-47 | reference definition: a letter is `a`-`z`, `A`-`Z` or `_` |
| LexSpec.IsNumber | lexer/Lexer.go:49-51 | reference definition: a digit is `0`-`9` |
| Lexing.Lexer.constructor | lexer/Lexer.go:10-14 | a new lexer is at position 0 of its input with the first byte loaded |
| Lexing.Lexer.ReadChar | lexer/Lexer.go:16-25 | the cursor moves to the look-ahead position and loads its byte, NUL past the end |
| Lexing.Lexer.NextChar | lexer/Lexer.go:27-33 | the byte after the cursor, NUL past the end |
| Lexing.Lexer.ReadIdentifier | lexer/Lexer.go:35-41 | the cursor ends on the last letter of the run, and the result is the run |
| Lexing.Lexer.ReadInteger | lexer/Lexer.go:53-59 | the cursor ends on the last digit of the run, and the result is the run |
| Lexing.Lexer.Skip | lexer/Lexer.go:61-68 | the cursor ends at `SkipSpace` of where it started |
| Lexing.Lexer.Copy | lexer/Lexer.go:70-72 | a new lexer over the same input at its start |
| Lexing.Lexer.GetNextToken | lexer/NexToken.go:5-129 | the token and the new cursor are `Scan` of the old cursor |
| Lexing.Lexer.ReadWord | lexer/NexToken.go:101-127 | on a byte that starts no operator: the identifier or keyword, the integer literal, or ILLEGAL, and the new cursor, are `Scan` of the old cursor |
| IntLiterals.ParseInt | ast/expressions.go:65-72 | a converted value comes from a non-empty text, and a negative value from a text with a leading `-` |
| IntLiterals.NatToDecimal | object/object.go:49-51 | the decimal digits of a natural number: all digits, with a leading `0` only for zero |
| IntLiterals.ValueOfDecimal | object/object.go:49-51 | the decimal text of a natural number reads back as that number |
| IntLiterals.DecimalOfValue | ast/expressions.go:65-72 | a digit text without leading zeros is the decimal text of its own value |
| IntLiterals.FormatRoundTrip | object/object.go:49-51 | every 64-bit integer printed in decimal converts back to itself |
| IntLiterals.CanonicalLiteral | ast/expressions.go:65-90 | a literal without leading zeros prints its converted value back as its own text |
| IntLiterals.CanonicalUnsigned | ast/expressions.go:65-90 | an unsigned literal without leading zeros that converts prints back as itself |
| IntLiterals.CanonicalNegative | parser/expressions.go:127-140 | a negative literal without leading zeros that converts prints back as itself |
| IntLiterals.DecimalLiteral | ast/expressions.go:65-72 | a literal with no leading zero is read in decimal: its value, or a range error above the int64 maximum |
| IntLiterals.OctalLiterals | ast/expressions.go:65-72 | a leading `0` makes a literal octal: `010` is 8, `-017` is -15, `08` is a syntax error |
| IntLiterals.NegativeDecimalLiteral | parser/expressions.go:127-140 | a minus sign folded onto a decimal literal gives its negation down to the int64 minimum, and a range error below |
| IntLiterals.SignedLiterals | parser/expressions.go:127-140 | `-5` converts; `--5` and `-` are syntax errors |
| Ast.GetName | ast/expressions.go:27-33 | an identifier's name is its token literal and its printed form |
| Ast.GetBoolValue | ast/expressions.go:52-54 | a boolean literal is true exactly when its token type is TRUE |
| Ast.GetOperands | ast/operation.go:34-36 | a prefix operation has exactly its one operand |
| Ast.GetOperatorType | ast/operation.go:30-32 | a prefix operation's operator type is its token type |
| Ast.NewIntegerLiteral | ast/expressions.go:65-72 | a node exists exactly when the literal converts; a failure carries the conversion's error; the node reports INT, keeps the literal as its text and carries the converted value |
| Ast.PrefixToString | ast/operation.go:38-46 | a prefix operation prints as `(op operand)` |
| Ast.CallToString | ast/expressions.go:154-167 | a call with two arguments prints as `name(a, b)` |
| Ast.CallWithoutArguments | ast/expressions.go:154-167 | a call without arguments prints as `name()` |
| Ast.FunctionLiteralToString | ast/expressions.go:115-137 | a function literal without a body prints `{}` for it, with its parameters separated by `, ` |
| Ast.JoinSnoc | ast/expressions.go:119-124 | each item after the first is written after a separator |
| Ast.JoinLength | ast/expressions.go:158-163 | the joined text is as long as the items together plus one separator fewer than there are items |
| Ast.JoinPair | ast/expressions.go:158-163 | two items are written with one separator between them |
| Ast.ExprStrings | ast/expressions.go:158-163 | the rendering of each argument, in order |
| Ast.StmtStrings | ast/node.go:5-9 | the rendering of each statement of a block, in order |
| Ast.Expr.GetTokenType | ast/expressions.go:20-148 | reference definition: an identifier and a call report IDENT, a literal or operation its token's type |
| Ast.Expr.GetTokenLiteral | ast/expressions.go:24-152 | reference definition: the literal of the node's token; a call gives its name |
| Ast.Expr.ToString | ast/expressions.go:31-167 | reference definition: literals print their token text, calls and function literals their source form |
| Ast.Stmt.ToString | ast/node.go:5-9 | reference definition: the printed form of a statement |
| Precedences.RankOf | parser/precedences/precedences.go:17-34 | a type has a rank above LOWEST exactly when the table holds it; the rank of each operator class is stated both ways |
| Precedences.TableKeys | parser/precedences/precedences.go:17-34 | the table holds exactly the twelve binary operators |
| Precedences.RankOrder | parser/precedences/precedences.go:5-15 | the ranks are strictly ordered, and no table entry reaches PREFIX or CALL |
| Objects.SameTypeSameKind | object/object.go:5-47 | two objects have the same type tag exactly when they are the same kind of value |
| Objects.InspectRoundTrip | object/object.go:37-51 | an integer's printed form converts back to it; a boolean prints `true` exactly when it is true |
| Objects.InspectInjective | object/object.go:21-51 | two objects of the same type that print the same are equal |
| Objects.Object.GetType | object/object.go:21-47 | reference definition: the type tag NONE, BOOL or INT of each kind of object |
| Objects.Object.Inspect | object/object.go:25-51 | reference definition: `None`, `true`/`false`, or the decimal digits of the integer |
| Repl.ObjIsEqual | repl/repl.go:97-123 | panics with "Cannot compare nil objects" exactly when an argument is nil; otherwise true exactly when the two values are equal |
| Repl.EvalExpression | repl/repl.go:74-95 | an integer literal evaluates to its value and a boolean literal to its truth; infix nodes give booleans; every other node gives None |
| Repl.EvalPanicsExactly | repl/repl.go:74-95 | evaluation panics exactly when some infix operator in the tree is not `==` |
| Repl.EqualityEvaluation | repl/repl.go:82-87 | `a == b` evaluates to whether `a` and `b` evaluate to the same value |
| Repl.SelfEquality | repl/repl.go:82-123 | `a == a` is true whenever `a` evaluates |
| ParseSpec.SyncedStep | parser/parser.go:28-34 | one more lexer call keeps the window in step with the stream: the next token becomes current and the new one next |
| ParseSpec.Raise | parser/error.go:16-18 | appends exactly one entry, `Parser error: ` and the message |
| ParseSpec.RaiseAndPanic | parser/error.go:10-14 | records the message, then panics with the error list |
| ParseSpec.ParsedLines | parser/error.go:40-43 | one entry per statement |
| ParseSpec.RaiseBlockStatementError | parser/error.go:38-49 | one entry per statement parsed so far, then one more; the cursor does not move |
| ParseSpec.NextPrecedence | parser/expressions.go:298-314 | never moves the cursor and only appends errors; a rank above LOWEST means no `;` is next and nothing changed |
| ParseSpec.ParseExpression | parser/expressions.go:9-109 | unless it halts, the cursor only moves forward and errors are only appended; a result is a well-formed tree, and a failure adds an error |
| ParseSpec.PrefixValue | parser/expressions.go:10-80 | the same guarantees for the value the expression starts from, chosen by the current token's type; a type with no prefix rule panics with "Unexpected token for parseExpression: " and the type's name as the last entry |
| ParseSpec.FinishExpression | parser/expressions.go:82-108 | the same guarantees for the infix loop and the ternary suffix |
| ParseSpec.IfSuffix | parser/expressions.go:99-106 | the same guarantees for the optional `if … else …` suffix |
| ParseSpec.FoldInfix | parser/expressions.go:87-97 | the same guarantees for the infix loop |
| ParseSpec.FoldWith | parser/expressions.go:87-97 | the same guarantees for the infix loop once its precedence is known |
| ParseSpec.ExpressionStops | parser/expressions.go:82-108 | with a `;`, or an operator that does not bind tighter than the parent rank, after the value, the expression is the value alone |
| ParseSpec.FoldStops | parser/expressions.go:87-97 | after a fold that fails or is followed by `;`, the loop ends with that fold |
| ParseSpec.FoldContinues | parser/expressions.go:87-97 | otherwise the loop goes on from the folded tree with the next precedence |
| ParseSpec.InfixStep | parser/expressions.go:88-92 | one fold consumes tokens, builds a well-formed tree, and reports its failure |
| ParseSpec.ParseInfix | parser/expressions.go:184-254 | the node is an infix node with the given left operand and the next token as its operator, and the cursor moves past it |
| ParseSpec.InfixRight | parser/expressions.go:199-253 | the node has the given operator and left operand |
| ParseSpec.ParseIfElseExpression | parser/expressions.go:256-289 | the node is a ternary with the given left operand |
| ParseSpec.IfCondition | parser/expressions.go:267-287 | the node is a ternary with the given left operand |
| ParseSpec.ElseExpression | parser/expressions.go:274-287 | the node is a ternary with the given left operand and condition, even when `else` is missing; in that case, unless the parser panics, the "Expected ELSE token" entry naming the token found is the next error on the list |
| ParseSpec.ElseOperand | parser/expressions.go:279-287 | the node is a ternary with the given left operand and condition |
| ParseSpec.ElseTail | parser/expressions.go:281-287 | the node is a ternary with the given left operand and condition; the alternative's failure adds an error |
| ParseSpec.ParsePrefix | parser/expressions.go:111-182 | a result is well formed; any failure adds an error |
| ParseSpec.Grouped | parser/expressions.go:144-159 | the same guarantees for `( e )` |
| ParseSpec.GroupedTail | parser/expressions.go:147-159 | the result is the inner expression itself |
| ParseSpec.CloseParen | parser/expressions.go:153-159 | never halts; a result is the inner expression itself, and a failure adds an error |
| ParseSpec.PrefixOperation | parser/expressions.go:115-142 | the same guarantees for `!x` and `-x` |
| ParseSpec.PrefixResult | parser/expressions.go:127-142 | never moves the cursor; a result is well formed, so `-` never stays around an integer literal |
| ParseSpec.BuiltIntType | parser/expressions.go:127-142 | among parsed trees, exactly the integer literals report INT |
| ParseSpec.ParseFunctionLiteral | parser/expressions.go:26-64 | never yields a node here; a failure adds an error |
| ParseSpec.ParamLoop | parser/expressions.go:39-52 | every parameter taken is an identifier, and the loop ends on `)` |
| ParseSpec.SemicolonFrom | parser/ParseProgram.go:383-388 | the first `;` at or after a position, or none exactly when there is none |
| ParseSpec.SkipToSemicolon | parser/ParseProgram.go:383-388 | halts as a hang exactly when no `;` is left; otherwise `;` becomes current and no error is added |
| ParseSpec.ParseLet | parser/ParseProgram.go:40-66 | a name that is not an identifier, or a missing `=` after it, fails with "expected next token" naming IDENT or `=`; a parsed statement binds the identifier after `let` to the expression parsed after `=`, ends with `;` current and has consumed tokens; a failure adds an error |
| ParseSpec.LetValue | parser/ParseProgram.go:54-66 | the statement is built exactly when the value parses and a `;` follows it, and it binds the name to that value; it ends with `;` current; a failure adds an error |
| ParseSpec.StatementEnd | parser/ParseProgram.go:61-66 | the statement is returned after the skip to `;`, and hangs exactly when no `;` is left |
| ParseSpec.ParseReturn | parser/ParseProgram.go:68-83 | `return;` gives a return without a value, with `;` current; otherwise a parsed statement returns the expression parsed after `return` and ends at the next `;`; a failure adds an error |
| ParseSpec.ParseStatement | parser/ParseProgram.go:38-112 | only `let`, `return`, `if` and `{` start a statement, and each gives its own kind; `}` fails with nothing recorded and nothing consumed; `;` fails with "Unexpected token" and stays; any other token fails with "Unexpected token" and is skipped; a failed `if` ends with "Could not parse if statement"; a statement consumes tokens and is well formed |
| ParseSpec.ParseBlock | parser/ParseProgram.go:114-141 | without `{` current it fails with "expected next token" naming `{`; a parsed block has consumed tokens up to and including its `}` and its statements are well formed; a failure adds an error |
| ParseSpec.BlockLoop | parser/ParseProgram.go:124-140 | the statements parsed so far are kept in order and the new ones are well formed; a finished block has just consumed `}` |
| ParseSpec.ParseIfElseStatement | parser/ParseProgram.go:143-186 | without `(` next it fails with "expected next token" naming `(`; a parsed if statement has as its condition the expression parsed from the `(`, a block, and an optional block or if alternative; a failure adds an error |
| ParseSpec.IfBlock | parser/ParseProgram.go:157-186 | the statement keeps the condition and the block parsed here, and has an alternative exactly when `else` follows the block |
| ParseSpec.ElseBranch | parser/ParseProgram.go:168-185 | the statement keeps the condition and block and always has an alternative: an if statement exactly when `if` follows `else`, a block otherwise |
| ParseSpec.ProgramLoop | parser/ParseProgram.go:15-34 | statements are kept in order; `ok` means EOF is current; not `ok` means an error was added |
| ParseSpec.ParseProgram | parser/ParseProgram.go:9-36 | never nil; every statement is well formed, and a program that is not ok added an error |
| Parsing.UntilEof | parser/parser.go:105-114 | the longest prefix of the stream without EOF |
| Parsing.UntilEofIs | parser/parser.go:105-114 | a prefix free of EOF that stops at an EOF is exactly what the token collection keeps |
| Parsing.SkipStep | parser/ParseProgram.go:383-388 | with the lexer at the end and no `;` in the window, no `;` is left; otherwise one step does not change the first `;` |
| Parsing.Parser.constructor | parser/parser.go:19-26 | takes the lexer over and pulls two tokens; no errors |
| Parsing.Parser.Prime | parser/parser.go:22-23 | after the two pulls, the first two tokens of the stream are current and next |
| Parsing.Parser.LoadNextToken | parser/parser.go:28-34 | the next token becomes current, one token is pulled, and the window stays in step with the stream |
| Parsing.Parser.Reset | parser/parser.go:97-103 | a fresh lexer over the same input, no errors, first two tokens loaded |
| Parsing.Parser.GetTokens | parser/parser.go:105-114 | returns the tokens of the whole input before the first EOF; EOF is left current |
| Parsing.Parser.RaiseError | parser/error.go:16-18 | the error list grows by exactly the `Raise` entry |
| Parsing.Parser.RaiseErrorAndPanic | parser/error.go:10-14 | the entry is recorded and the panic carries the list |
| Parsing.Parser.RaiseNextTokenError | parser/error.go:20-27 | the entry names the expected type and the next token's type |
| Parsing.Parser.RaiseTokenError | parser/expressions.go:263-278 | one entry naming the expected type and the current token's type |
| Parsing.Parser.RaiseExpressionError | parser/error.go:29-36 | the entry names the next token's type |
| Parsing.Parser.RaiseBlockStatementError | parser/error.go:38-49 | one entry per statement in index order, then one naming the current and next tokens |
| Parsing.Parser.GetCurrentPrecedence | parser/expressions.go:291-296 | the current token's rank, LOWEST if it has none |
| Parsing.Parser.GetNextPrecedence | parser/expressions.go:298-314 | the rank and state of `NextPrecedence` |
| Parsing.Parser.ParseExpression | parser/expressions.go:9-109 | the result and new state of `ParseSpec.ParseExpression` |
| Parsing.Parser.PrefixValue | parser/expressions.go:10-80 | the result and new state of `ParseSpec.PrefixValue` |
| Parsing.Parser.FinishExpression | parser/expressions.go:82-108 | the result and new state of `ParseSpec.FinishExpression` |
| Parsing.Parser.IfSuffix | parser/expressions.go:99-106 | the result and new state of `ParseSpec.IfSuffix` |
| Parsing.Parser.FoldInfix | parser/expressions.go:87-97 | the result and new state of `ParseSpec.FoldInfix` |
| Parsing.Parser.FoldTurn | parser/expressions.go:88-96 | one turn of the loop either ends it as `FoldWith` ends or leaves a state from which `FoldWith` gives the same result |
| Parsing.Parser.InfixStep | parser/expressions.go:88-92 | the result and new state of `ParseSpec.InfixStep` |
| Parsing.Parser.ParseInfix | parser/expressions.go:184-254 | the result and new state of `ParseSpec.ParseInfix` |
| Parsing.Parser.InfixRight | parser/expressions.go:199-253 | the result and new state of `ParseSpec.InfixRight` |
| Parsing.Parser.RaiseInfixError | parser/expressions.go:203-246 | the new state is `InfixFailure`: one comparison entry for `<` and `>`, one logical entry for `&&` and `\|\|`, one arithmetic entry for the others, none for `==`, `!=`, `<=` and `>=` |
| Parsing.Parser.ParseIfElseExpression | parser/expressions.go:256-289 | the result and new state of `ParseSpec.ParseIfElseExpression` |
| Parsing.Parser.IfCondition | parser/expressions.go:267-287 | the result and new state of `ParseSpec.IfCondition` |
| Parsing.Parser.ElseExpression | parser/expressions.go:274-287 | the result and new state of `ParseSpec.ElseExpression` |
| Parsing.Parser.ElseOperand | parser/expressions.go:279-287 | the result and new state of `ParseSpec.ElseOperand` |
| Parsing.Parser.ParsePrefix | parser/expressions.go:111-182 | the result and new state of `ParseSpec.ParsePrefix` |
| Parsing.Parser.Grouped | parser/expressions.go:144-159 | the result and new state of `ParseSpec.Grouped` |
| Parsing.Parser.CloseParen | parser/expressions.go:153-159 | the result and new state of `ParseSpec.CloseParen` |
| Parsing.Parser.PrefixOperation | parser/expressions.go:115-142 | the result and new state of `ParseSpec.PrefixOperation` |
| Parsing.Parser.PrefixResult | parser/expressions.go:127-142 | the result and new state of `ParseSpec.PrefixResult` |
| Parsing.Parser.ParseFunctionLiteral | parser/expressions.go:26-64 | the result and new state of `ParseSpec.ParseFunctionLiteral` |
| Parsing.Parser.ParamLoop | parser/expressions.go:39-52 | the parameters and new state of `ParseSpec.ParamLoop` |
| Parsing.Parser.SkipToSemicolon | parser/ParseProgram.go:383-388 | the result and new state of `ParseSpec.SkipToSemicolon`; the hang is detected from the lexer's position |
| Parsing.Parser.SkipTurn | parser/ParseProgram.go:384-387 | one pass of the skipping loop: a hang only when no `;` is left; otherwise one token further, with the same first `;` ahead and no new errors |
| Parsing.Parser.ParseStatement | parser/ParseProgram.go:38-112 | the result and new state of `ParseSpec.ParseStatement` |
| Parsing.Parser.ParseLet | parser/ParseProgram.go:40-66 | the result and new state of `ParseSpec.ParseLet` |
| Parsing.Parser.LetValue | parser/ParseProgram.go:54-66 | the result and new state of `ParseSpec.LetValue` |
| Parsing.Parser.StatementEnd | parser/ParseProgram.go:61-66 | the result and new state of `ParseSpec.StatementEnd` |
| Parsing.Parser.ParseReturn | parser/ParseProgram.go:68-83 | the result and new state of `ParseSpec.ParseReturn` |
| Parsing.Parser.ParseBlockStatement | parser/ParseProgram.go:114-141 | the result and new state of `ParseSpec.ParseBlock` |
| Parsing.Parser.ParseIfElseStatement | parser/ParseProgram.go:143-186 | the result and new state of `ParseSpec.ParseIfElseStatement` |
| Parsing.Parser.IfBlock | parser/ParseProgram.go:157-186 | the result and new state of `ParseSpec.IfBlock` |
| Parsing.Parser.ElseBranch | parser/ParseProgram.go:168-185 | the result and new state of `ParseSpec.ElseBranch` |
| Parsing.Parser.ParseProgram | parser/ParseProgram.go:9-36 | the result and new state of `ParseSpec.ParseProgram` |
| AsWritten.ParsePrefixAsWritten | parser/expressions.go:111-182 | agrees with `ParsePrefix` in node, state and halts; only the flag differs |
| AsWritten.PrefixFailureReportedAsSuccess | parser/expressions.go:119-125 | on `-08;` the prefix routine records two errors and reports success with a nil node |
| AsWritten.ParseIfElseStatementAsWritten | parser/ParseProgram.go:143-186 | agrees with `ParseIfElseStatement` in node, state and halts; only the flag differs |
| AsWritten.IfBlockAsWritten | parser/ParseProgram.go:157-186 | agrees with `IfBlock` apart from the flag |
| AsWritten.ElseBranchAsWritten | parser/ParseProgram.go:168-185 | agrees with `ElseBranch` apart from the flag |
| AsWritten.IfArmAsWritten | parser/ParseProgram.go:85-91 | the same outcome as `ParseStatement`, with an error list that is the intended one or lacks its last entry |
| AsWritten.IfFailureLosesEntry | parser/ParseProgram.go:159-163 | on `if (x) 5;` two errors are recorded where the intended parser records three |
| Scenarios.ArithExpression | parser/parser_test.go:47 | `-y * -1 + 1` parses as `((-y) * -1) + 1`, with `-1` one literal |
| Scenarios.ArithStatement | parser/parser_test.go:61-74 | `return -y * -1 + 1;` parses as one return statement of that tree, with `;` current after it |
| Scenarios.ArithProgram | parser/parser_test.go:61-74 | `return -y * -1 + 1;` is one return statement of that tree, and the program is ok |
| Scenarios.ArithPrinted | parser/parser_test.go:61-74 | that tree prints `(((- y) * -1) + 1)` |
| Scenarios.LetNegStatement | parser/parser_test.go:51-53 | `let x = -5;` binds `x` to the literal `-5` |
| Scenarios.LogicExpression | parser/parser_test.go:82-91 | `!z \|\| x` parses as `(!z) \|\| x` |
| Scenarios.LogicStatement | parser/parser_test.go:82-91 | `return !z \|\| x;` is one return statement of that tree |
| Scenarios.ChoiceExpression | parser/expressions.go:99-106 | `1 + 2 if x else 3` parses as `1 + (2 if x else 3)` |
| Scenarios.LooseExpression | parser/expressions.go:274-287 | `1 if x then 3` still gives the ternary `1 if x else 3`, with the missing `else` as the only error |
| Scenarios.LooseBranches | parser/expressions.go:274-287 | the token standing where `else` belongs is reported and skipped, and the alternative is parsed after it |
| Scenarios.BareElsePanics | parser/expressions.go:274-287 | in `1 if x 3;` the `3` is taken for the missing `else`, so the alternative is parsed from `;` and the parser panics |
| Scenarios.UnendedLetHangs | parser/ParseProgram.go:383-388 | `let x = 5` without `;` hangs, as a statement and as a program |
| Scenarios.FiveLexed | repl/repl_test.go:12-14 | the test's indented `return 5;` lexes to RETURN, INT, `;`, EOF |
| Scenarios.FiveProgram | repl/repl_test.go:12-16 | those tokens parse as one return statement of 5 |
| Scenarios.FiveEvaluates | repl/repl_test.go:11-17 | the literal 5 evaluates to the integer 5, and that compares equal to the expected integer 5 |
| Scenarios.ReturnFiveEvaluates | repl/repl_test.go:11-17 | the program parses, its value evaluates to the integer 5, and that compares equal to the expected object |
| Scenarios.SmallLiterals | ast/expressions.go:65-72 | `1`, `-1`, `5` and `-5` convert to their values |

## Left out

- `Start` and `printParserErrors` (repl/repl.go:16-72) and main.go: console input and output.
- Ast.Expr.ToString: the warning that `FunctionLiteral.ToString` prints to the console for a missing body (ast/expressions.go:131) is console output and is not modelled; the returned text `{}` is.
- The function-definition parser called at parser/expressions.go:54-64 (`parseBlockStatement` and `ast.FunctionDefinition`) is not part of this model. A `fn` expression whose parameter list is accepted ends in the `Unmodelled` halt.
- `raiseTokenError`, called at parser/expressions.go:264 and 277, is not part of this model. `ParseSpec.RaiseTokenError` records one entry naming the expected type and the current token's type.
- The printed form, token type and literal of infix, ternary and statement nodes are not part of this model. `Ast` gives them fully parenthesised forms, used only by the block error report.
- `strconv.ParseInt` is modelled for the texts the parser can hand it: digits from the lexer, with `-` signs folded on. Base prefixes such as `0x` and `_` separators cannot reach it, because the lexer reads only digits into an integer literal.
- Tokens.NewToken: a byte of 0x80 or more would become two bytes under Go's `string(byte)` conversion. The lexer calls it only with ASCII operator bytes, so the model keeps one byte.
- The checks "Left operand is nil" and "Right operand is nil" (parser/expressions.go:186-189, 248-251, 257-260) cannot fire in the model, because every routine that succeeds returns a node. They could fire only through the flag errors described under "## Findings".
- The `default` branch of `objIsEqual` (repl/repl.go:120-121) is unreachable over the three object kinds.
- The earlier copies of `ParseProgram`, `parseStatement`, `skipToSemicolon`, `parseExpression` and the error helpers are not modelled. These are parser/parser.go:36-95 and 116-133, and parser/ParseProgram.go:188-381 and 390 onwards. The model follows parser/expressions.go, parser/error.go and parser/ParseProgram.go:9-186.
- The endless loop of `skipToSemicolon` with no `;` left is modelled as the `Hang` halt. `Parsing.Parser.SkipToSemicolon` detects it when the lexer has reached the end of its input and neither token of the window is `;`.
- A Go panic unwinds the stack. In the model it is a `Halt` value that every routine passes up unchanged.

## Findings

| source | as written | input that shows it | evidently intended | confidence | as-written member | corrected member |
|---|---|---|---|---|---|---|
| parser/expressions.go:119-125 | the operand of `!`/`-` failed, so `ok` is false and `return nil, !ok` reports success with a nil node; the `(` arm does the same at line 150 | `let x = -08;` | `return nil, false` | high; not executed | AsWritten.PrefixFailureReportedAsSuccess | ParseSpec.PrefixOperation |
| parser/ParseProgram.go:159-163 | after a failed condition, block or `else` block, `return nil, !ok` reports success, so `parseStatement` skips its "Could not parse if statement" entry (also at lines 155 and 182) | `if (x) 5;` | `return nil, false` | high; not executed | AsWritten.IfFailureLosesEntry | ParseSpec.ParseIfElseStatement |

On `let x = -08;`, `parseExpression` then sees `;` next and returns the nil node as a success (parser/expressions.go:66-84). The let statement is built with a nil value (parser/ParseProgram.go:56-66), and `ParseProgram` returns ok although two errors were recorded. The rest of the model, and the `Parser` methods, use the intended `nil, false`.
