# Expression trees and the expression parser of numgrad

This project models two cooperating parts of the numgrad language front end.

- **The expression tree and its s-expression rendering** (`lang/expr`).
  Go's `Expr` interface, with its eleven pointer-typed node kinds, becomes
  one closed datatype `Exprs.Expr`:
  - a nil interface value is `Nil`;
  - a typed nil pointer of one of the six kinds whose `Sexp` method checks
    for nil is `NilNode(kind)`.

  `Exprs.Sexp` renders every tree the Go methods render without panicking,
  exactly as they do. A typed nil pointer of the other five kinds (Bad,
  FuncLiteral, CompLiteral, TableLiteral, TableIndex) makes Go panic and has
  no value in the datatype. The rendering keeps the three oddities of the
  renderer:
  - a TableIndex never closes its outer parenthesis;
  - all the rows of a TableLiteral are flattened into one group;
  - a Range may print an interval and an exact value together.
- **The precedence-climbing expression parser** (`parser`). The parser is an
  object. It holds a scanner and a growing list of `Error{Offset, Msg}`
  records, and it changes both in place. In the model:
  - `Parsing.Parser` is a class whose methods mirror the Go methods one for
    one, with the same loops;
  - each method is proved to return exactly the result and leave exactly the
    state that a pure specification function in `Grammar` computes from the
    old state (`Agrees`);
  - the properties the parser promises are proved as lemmas about those
    functions (`GrammarLemmas`, `RecoveryLemmas`).

  These properties are:
  - left associativity;
  - precedence between two operators;
  - error recovery with placeholders;
  - how arguments are closed;
  - which error `ParseExpr` reports.

The scanner is outside the core. It is modelled as a finished token stream:
- a sequence of lexemes (token, literal value, byte offset, and whether input
  remains);
- the offset at the end of input;
- the error the scanner reports once it is exhausted (plain `EOF` or a
  lexical error).

The cursor counts the calls of `Next`. Past the last lexeme the scanner shows
`EOF` at the end offset and reports its error.

A Go `panic` of the parser (the unsupported selector, index and composite
literal branches, and a failed `.(string)` assertion on an identifier's
literal) becomes an explicit failure, `Aborted`/`Panic`. Every caller passes
it on unchanged.

Token precedence is a parameter, `Tokens.Precedences`. It holds one level for
each of the twelve binary operators, and every other token has level 0, as
`Token.Precedence()` promises. The actual level numbers live in the token
package, which is not part of this model. Each property is stated for every
table.

Behaviour of the code worth noting:
- The first scan in `ParseExpr` calls the scanner directly, so a leading
  comment is not skipped (parser/parser.go:14). Every later advance skips
  comments.
- A scanner error met after a prefix operator is not recorded in the error
  list. It only becomes the text of a BadExpr (`RecoveryLemmas.PrefixAtEnd`).
  Parsing then continues.
- An unexpected end of input in the middle of an expression yields an
  expression, not nil. Only an empty token stream yields a nil expression.
- Tokens left over after the expression are not reported. `ParseExpr` only
  reports a scanner error other than plain end of input. A parenthesised
  expression at the start ends the whole expression at its `)`, because
  `parseOperand` checks the `)` but does not consume it
  (`RecoveryLemmas.ParenEndsExpression`).

## Model

| member | source | states |
|---|---|---|
| Exprs.Sexp | lang/expr/expr.go:116-221 | every node kind other than nil, a nil node and an Ident renders as a group opening with `(`; every value of the datatype has a rendering, with nil children rendered as sentinels |
| ExprsLemmas.NilRenderings | lang/expr/expr.go:116-146 | each nil node kind renders as its own `nil…` sentinel, distinct from the others and from `nilexpr`, the rendering of a nil Expr |
| ExprsLemmas.ExprsStrIsJoin | lang/expr/expr.go:237-246 | exprsStr is the renderings joined with single spaces |
| ExprsLemmas.ExprsStrAppend | lang/expr/expr.go:237-246 | exprsStr of two non-empty lists is their exprsStr with one space between |
| ExprsLemmas.ExprsStrSeparators | lang/expr/expr.go:237-246 | an empty list renders as "", and n elements add exactly n - 1 spaces to those inside the renderings |
| ExprsLemmas.JoinSpaces | lang/expr/expr.go:237-246 | joining n strings with a space adds exactly n - 1 spaces |
| ExprsLemmas.JoinAppend | lang/expr/expr.go:177-183 | joining a concatenation is joining each part, with the separator between |
| ExprsLemmas.Flatten | lang/expr/expr.go:184-193 | all the rows' elements in order; empty exactly when every row is empty |
| ExprsLemmas.RowsStrIsJoin | lang/expr/expr.go:186-188 | the accumulated rows string is a space and then the rows joined with spaces, or "" when there are no rows |
| ExprsLemmas.RowsGroupShape | lang/expr/expr.go:189-191 | the rows group is present exactly when there is at least one row, even if every row is empty, and holds the rows joined by spaces in one group |
| ExprsLemmas.RowsJoinFlatten | lang/expr/expr.go:184-193 | when no row is empty, the joined rows are the exprsStr of all elements flattened |
| ExprsLemmas.TableLiteralFlattensRows | lang/expr/expr.go:184-193 | when no row is empty, a TableLiteral renders its type, its column names and one group of all the rows' elements |
| ExprsLemmas.QuotedJoin | lang/expr/expr.go:196-199 | joining names with quote, bar, quote and quoting the whole is joining the quoted names with a bar |
| ExprsLemmas.JoinEmpty | lang/expr/expr.go:196-199 | a join with a non-empty separator is empty exactly when there is no name or only the empty name |
| ExprsLemmas.ColNamesShape | lang/expr/expr.go:196-199 | the TableIndex column names group is a space and the quoted names joined by a bar, or nothing when the names join to "" |
| ExprsLemmas.MethodShape | lang/expr/expr.go:165-170 | with a receiver, a FuncLiteral renders as `(method (`, with `*` next exactly when the receiver is a pointer |
| ExprsLemmas.FuncShape | lang/expr/expr.go:171-174 | without a receiver, a FuncLiteral renders as `(func ` |
| ExprsLemmas.FuncLiteralShape | lang/expr/expr.go:154-175 | a FuncLiteral renders as a method exactly when it has a receiver name, with `*` exactly for a pointer receiver |
| ExprsLemmas.RangeColonPresent | lang/expr/expr.go:202-210 | a range with a start or an end renders a `:` |
| ExprsLemmas.RangeColonAbsent | lang/expr/expr.go:200-219 | a range with neither bound renders no `:` of its own |
| ExprsLemmas.RangeColon | lang/expr/expr.go:200-219 | `:` appears in a range's rendering exactly when it has a start or an end |
| ExprsLemmas.RangeEmpty | lang/expr/expr.go:200-219 | a range renders `()` exactly when it has no bound and no exact part to print |
| ExprsLemmas.RangeSpacing | lang/expr/expr.go:200-219 | with a start, an end or both, the interval is followed by one space and the exact part exactly when there is one; without a bound the exact part alone fills the group |
| ExprsBalance.DepthConcat | lang/expr/expr.go:116-246 | the parenthesis depth of a concatenation is the sum of the parts' depths |
| ExprsBalance.NilBalanced | lang/expr/expr.go:116-146 | sentinels and `nilexpr` hold no parenthesis |
| ExprsBalance.BinaryBalanced | lang/expr/expr.go:116-121 | a Binary closes the group it opens: its depth is its children's |
| ExprsBalance.UnaryBalanced | lang/expr/expr.go:122-127 | a Unary closes the group it opens |
| ExprsBalance.BadBalanced | lang/expr/expr.go:128 | a Bad node closes its group around the error text |
| ExprsBalance.SelectorBalanced | lang/expr/expr.go:129-134 | a Selector closes its group |
| ExprsBalance.LiteralBalanced | lang/expr/expr.go:135-140 | a BasicLiteral with balanced value text is balanced |
| ExprsBalance.FuncLiteralBalanced | lang/expr/expr.go:154-175 | a FuncLiteral with balanced names, type and body is balanced |
| ExprsBalance.CompLiteralBalanced | lang/expr/expr.go:177-183 | a CompLiteral closes its group; its depth is its elements' |
| ExprsBalance.TableLiteralBalanced | lang/expr/expr.go:184-193 | a TableLiteral closes its group; its depth is its columns' and rows' |
| ExprsBalance.RowsGroupBalanced | lang/expr/expr.go:189-191 | the rows group closes the parenthesis it opens |
| ExprsBalance.CallBalanced | lang/expr/expr.go:147-152 | a Call closes its group |
| ExprsBalance.RangeBalanced | lang/expr/expr.go:200-219 | a Range closes its group |
| ExprsBalance.TableIndexUnclosed | lang/expr/expr.go:220 | a TableIndex never closes `(tableindex`: its rendering has one more `(` than its parts |
| ExprsBalance.TableIndexWitness | lang/expr/expr.go:195-221 | the smallest TableIndex renders `(tableindex t () ()`, one parenthesis short |
| ExprsBalance.DepthSexp | lang/expr/expr.go:116-246 | with balanced names and texts, a rendering has exactly as many more `(` than `)` as the tree has TableIndex nodes |
| ExprsBalance.DepthExprsStr | lang/expr/expr.go:237-246 | the depth of exprsStr is the number of TableIndex nodes in the list |
| Tokens.Name | parser/parser.go:101 | every fixed token name is non-empty |
| Tokens.NameIsWord | lang/expr/expr.go:116-127 | every fixed token name, as Binary and Unary print their operator, is a word of letters |
| Tokens.QuotedNeedsNoEscape | parser/parser.go:206 | for every fixed token, the name between the quotes holds no `"`, no backslash and only printable ASCII, so plain quoting is what `%q` prints |
| Text.NatStr | parser/parser.go:180 | the decimal digits of a natural number, never empty |
| Text.IntStr | parser/parser.go:191 | `%d`: a minus sign exactly for negative values |
| Text.PadLeft | parser/parser.go:180 | `%5d` padding: at least five characters, spaces and then the digits unchanged |
| Text.NatStrRoundTrip | parser/parser.go:180 | reading the rendered digits back gives the number |
| ParseErrors.ErrorsError | parser/parser.go:176-183 | the loop's buffer is the banner followed by one line per error, in order |
| ParseErrors.ReportSnoc | parser/parser.go:179-181 | one more error adds exactly its line at the end of the report |
| ParseErrors.ReportAppend | parser/parser.go:176-183 | reporting more errors only appends lines; earlier lines are never rewritten |
| ParseErrors.ReportNewlines | parser/parser.go:176-183 | a report of n single-line errors has exactly n + 1 lines |
| ParseErrors.LineNewlines | parser/parser.go:180 | a line holds exactly one newline when its message holds none |
| ParseErrors.BannerNewlines | parser/parser.go:178 | the banner is one line |
| ParseErrors.LineOffset | parser/parser.go:180 | a line starts `off `, then spaces and the digits of the offset, right-aligned in five or more characters, reading back as the offset |
| ParseErrors.LineMessage | parser/parser.go:180 | after the offset field come `: `, the message unchanged, and the newline |
| ParseErrors.ErrorTextFields | parser/parser.go:190-192 | the text of one error is the prefix, the message and ` (off N)`, with N reading back as the offset |
| Scanning.CurLexeme | parser/parser.go:43-48 | past the last lexeme the scanner shows EOF at the end offset with no input left |
| Scanning.ScanErr | parser/parser.go:81 | the scanner error is set exactly once the cursor is past the last lexeme |
| Grammar.Advance | parser/parser.go:43-48 | `next` moves forward, never changes the errors, and never stops on a Comment |
| Grammar.AdvanceSkipsComments | parser/parser.go:43-48 | every token `next` passes over, except the one it stops on, is a comment |
| Grammar.Record | parser/parser.go:194-201 | `error` appends exactly one error at the current offset and keeps the earlier ones unchanged |
| Grammar.Expect | parser/parser.go:203-209 | `expect` never moves the cursor, answers whether the token is t, and records an error exactly when it is not |
| Grammar.ExpectCommaOr | parser/parser.go:96-106 | false only at `otherwise`; any token other than a comma or `otherwise` records "missing ','" and answers true |
| Grammar.IdentF | parser/parser.go:211-218 | an identifier becomes its text; any other token becomes `_` with an "expected" error; the token is consumed either way |
| Grammar.ExprF | parser/parser.go:50-52 | parseExpr consumes at least one token unless the input is exhausted, and stops only at a token of level 0 |
| Grammar.BinaryF | parser/parser.go:54-74 | what follows the expression has a level below minPrec, and at least one token is consumed unless the input is exhausted |
| Grammar.Levels | parser/parser.go:56-72 | the outer loop ends before a token of level below minPrec |
| Grammar.Run | parser/parser.go:57-71 | the inner loop at level p ends before a token of level below p |
| Grammar.UnaryF | parser/parser.go:76-94 | a unary expression consumes at least one token unless the input is exhausted, and only appends errors |
| Grammar.PrimaryF | parser/parser.go:124-152 | a primary expression consumes at least one token unless the input is exhausted, and only appends errors |
| Grammar.OperandF | parser/parser.go:154-172 | every operand returns a node and consumes at least one token unless the input is exhausted |
| Grammar.ArgsF | parser/parser.go:108-122 | an argument list only moves forward and only appends errors |
| Grammar.ArgsLoop | parser/parser.go:112-118 | the argument loop keeps the arguments parsed so far as a prefix of its result |
| Grammar.Open | parser/parser.go:109-110 | at `(`, parseArgs just moves past it |
| Grammar.Close | parser/parser.go:119-120 | at `)`, parseArgs just moves past it |
| Grammar.ParseSource | parser/parser.go:12-28 | no first token: nil and "unexpected EOF" (or the lexical error); otherwise the expression parseExpr returned unless it panicked, with all recorded errors in order when there are any, else the lexical error exactly when the parse reached it, else no error |
| Parsing.Parser.constructor | parser/parser.go:35-41 | a fresh scanner over the source and an empty error list |
| Parsing.Parser.Next | parser/parser.go:43-48 | the new state is Advance of the old |
| Parsing.Parser.Error | parser/parser.go:194-201 | returns the error at the current offset and appends it to the list |
| Parsing.Parser.Expect | parser/parser.go:203-209 | result and new state are Grammar.Expect's |
| Parsing.Parser.ExpectCommaOr | parser/parser.go:96-106 | result and new state are Grammar.ExpectCommaOr's |
| Parsing.Parser.ParseIdent | parser/parser.go:211-218 | result and new state are IdentF's |
| Parsing.Parser.ParseExpr | parser/parser.go:50-52 | result and new state are ExprF's |
| Parsing.Parser.ParseBinaryExpr | parser/parser.go:54-74 | result and new state are BinaryF's |
| Parsing.Parser.ParseLevels | parser/parser.go:56-72 | the outer loop over levels computes Levels |
| Parsing.Parser.ParseRun | parser/parser.go:57-71 | the inner loop at one level computes Run |
| Parsing.Parser.ParseOperation | parser/parser.go:58-70 | one pass of the inner loop: the operator is consumed, the right operand is BinaryF's at p + 1, and it is folded in on the right |
| Parsing.Parser.ParseUnaryExpr | parser/parser.go:76-94 | result and new state are UnaryF's |
| Parsing.Parser.ParseArgs | parser/parser.go:108-122 | result and new state are ArgsF's |
| Parsing.Parser.ParseArgList | parser/parser.go:111-118 | the argument loop computes ArgsLoop |
| Parsing.Parser.ParsePrimaryExpr | parser/parser.go:124-152 | result and new state are PrimaryF's |
| Parsing.Parser.ParseOperand | parser/parser.go:154-172 | result and new state are OperandF's |
| Parsing.ParseExpr | parser/parser.go:12-28 | the outcome is ParseSource's |
| GrammarLemmas.AfterOperand | parser/parser.go:54-74 | in a chain `a op b op c ...`, the token after each operand is the next operator, or EOF after the last |
| GrammarLemmas.OperandUnary | parser/parser.go:76-94 | an identifier operand is a whole unary expression and consumes only itself |
| GrammarLemmas.OperandAlone | parser/parser.go:54-74 | an operand followed by an operator below minPrec is a whole binary expression, and the operator is left |
| GrammarLemmas.ChainRun | parser/parser.go:57-71 | at one level, the inner loop folds every remaining operand of a chain in on the right |
| GrammarLemmas.LevelsDescend | parser/parser.go:56 | levels above the current operator's pass without consuming anything |
| GrammarLemmas.LevelsAtEnd | parser/parser.go:56-72 | at the end of input every remaining level passes |
| GrammarLemmas.UnaryAlone | parser/parser.go:54-74 | with no operator at minPrec or above, the unary result is returned unchanged and the operator is left unconsumed |
| GrammarLemmas.ChainLevels | parser/parser.go:56-72 | in an input that is exactly a chain of identifiers and operators of one level k, with no comment, the outer loop runs level k once, then idles down to 1 |
| GrammarLemmas.LeftAssociative | parser/parser.go:54-74 | in an input that is exactly `a op b op c ...` with identifier operands and no comment, operators of equal precedence build a left-nested Binary chain in source order, and nothing is recorded |
| GrammarLemmas.TighterRightOperand | parser/parser.go:63 | with op2 tighter than op1, the right operand of op1, parsed at its level + 1, is all of `b op2 c` |
| GrammarLemmas.TighterRight | parser/parser.go:54-74 | an input of exactly `a op1 b op2 c`, identifiers and no comment, with op2 tighter is `a op1 (b op2 c)` |
| GrammarLemmas.FirstOperand | parser/parser.go:55-56 | in `a op1 b ...` the outer loop starts at op1's level after the operand `a` |
| GrammarLemmas.LooserFirstRun | parser/parser.go:57-71 | with op2 strictly looser than op1, the run at op1's level folds in only `b` and stops at op2 |
| GrammarLemmas.StrictlyLooserRight | parser/parser.go:54-74 | an input of exactly `a op1 b op2 c`, identifiers and no comment, with op2 strictly looser is `(a op1 b) op2 c` |
| GrammarLemmas.LooserRight | parser/parser.go:54-74 | an input of exactly `a op1 b op2 c`, identifiers and no comment, with op2 looser or equal is `(a op1 b) op2 c`; with TighterRight this decides every pair |
| RecoveryLemmas.PrefixAtEnd | parser/parser.go:78-83 | `+`, `-` or `!` as the last token gives a BadExpr carrying the scanner's error, and nothing is recorded |
| RecoveryLemmas.OperandMissingAtEnd | parser/parser.go:170-171 | a missing operand at the end is a BadExpr, reported once at the end offset |
| RecoveryLemmas.StarAtEnd | parser/parser.go:87-90 | `*` as the last token has no scanner check: its operand is the missing one |
| RecoveryLemmas.ParenEndsExpression | parser/parser.go:162-166 | a parenthesised expression at the start ends the whole expression at its `)` |
| RecoveryLemmas.ArgsLoopStops | parser/parser.go:112 | the argument loop stops only at `)` or where the input has run out |
| RecoveryLemmas.IdentArg | parser/parser.go:50-94 | an identifier followed by `,` or `)` is a whole expression and consumes only itself |
| RecoveryLemmas.TwoArgs | parser/parser.go:111-118 | the argument loop over `a , b )` collects both identifiers and stops on the `)` |
| RecoveryLemmas.CallOfTwo | parser/parser.go:12-28 | `f(a, b)` parses as the call of `f` on `a` and `b`, consumes every token, records nothing, and ParseExpr reports no error unless the scanner met a lexical one |
| RecoveryLemmas.StrayToken | parser/parser.go:154-172 | a lone token that cannot start an expression gives a BadExpr and exactly one "expected operand" error, at the end offset |
| RecoveryLemmas.ArgsClose | parser/parser.go:119-120 | at `)` parseArgs moves past it with nothing recorded; otherwise input has run out and one "expected ')'" error is added |

## Left out

- The scanner is not part of this model. It is a finished token stream with a cursor, and lexing is not modelled. `p.s.r > 0` (input remains) is a flag carried by each lexeme.
- The token package is not part of this model. Token names are fixed strings, assumed to be each constant's own identifier (`Add`, `LeftParen`, …) as `Token.String()` prints it; Tokens.NameIsWord, Tokens.QuotedNeedsNoEscape and the Binary and Unary cases of ExprsBalance.DepthSexp rest on that assumption. Precedence levels are a parameter (`Precedences`), 0 for every token that is not a binary operator.
- The `tipe` package is not part of this model. A CompLiteral's type is nil (`niltype`) or carries its own rendering. A FuncLiteral's `*tipe.Func` and a TableLiteral's `*tipe.Table` are never the nil interface, so their type (`NodeTipe`) always carries its own rendering; what the tipe package prints for a nil pointer of those types is not modelled.
- Exprs.Sexp: typed nil `*Bad`, `*FuncLiteral`, `*CompLiteral`, `*TableLiteral` and `*TableIndex` nodes are not representable. Go dereferences them and panics (lang/expr/expr.go:128, 156, 179, 186, 196).
- Tokens.Quoted: the backslash escapes `%q` would add to the name of a token outside the fixed set (`Other`) are not modelled; for the fixed tokens none are needed (`Tokens.QuotedNeedsNoEscape`).
- `%T` and `%v` formatting, and the printing of `*big.Int` and `*big.Float`: a literal value is a string, an integer printed in decimal, or a float carried with its printed text. A Bad node carries its error's `%v` text.
- The unused `lhs` flag, stack exhaustion, and the exact text of Go's panic for a failed type assertion: a panic is a failure result with a message.
- Parsing.Parser.ParseLevels, Parsing.Parser.ParseRun, Parsing.Parser.ParseOperation, Parsing.Parser.ParseArgList: these are the loops, and the body of the inner loop, of `parseBinaryExpr` and `parseArgs`, written as methods of their own so that each loop is proved against its own function. The loops are otherwise as written.
- Parsing.Parser.ParsePrimaryExpr: the `for { switch }` of `parsePrimaryExpr` has no loop, because every branch returns or panics.
- Only an operator's level and name matter to the parser. Operator spellings, and the scanner's byte positions other than the recorded offsets, are not modelled.
