# emolang in Dafny

A model of the front end and evaluator of emolang, a small scripting language whose
keywords, operators, digits and delimiters are emoji. The model covers:

- the older tokenizer (`src/lexer.rs`), which scans grapheme clusters into tokens;
- the older assignment parser (`src/parser.rs`), which walks that token vector;
- the newer token vocabulary and classification tables (`src/types/token.rs`);
- the newer syntax tree with its precedence table, `token_literal` and printer
  (`src/types/node.rs`);
- the runtime values (`src/types/object.rs`);
- the tree-walking evaluator (`src/evaluator.rs`);
- `StatefulVector`, a vector with a movable cursor (`src/util.rs`).

Files, one module each: `wrappers.dfy` (Option, Result), `numerals.dfy` (`i64`, its
decimal text, keycap digits), `floats.dfy` (`f64` as its bit pattern), `tokens.dfy`,
`lexer.dfy`, `parser.dfy`, `node.dfy`, `object.dfy`, `evaluator.dfy`, `util.dfy`.

Rust's debug-build behaviour is modelled explicitly. Each panic of the source becomes an
outcome of its own:

- An index past the end of a vector is a `LexFault` in the tokenizer and a `ParseFault`
  in the parser.
- `i64` overflow and division by zero are `Abort` in the evaluator.
- `usize` underflow and `Vec::insert`/`Vec::remove` on a bad index are `Panicked` or a
  `Panic` value in `StatefulVector`.

The tokenizer is modelled as written. A string with no closing 💬 reads past the end of
the input. So does a number or identifier that ends the input, because the lookahead
`chars[pos + 1]` is unguarded (`Lexer.TrailingRunFaults`). Each of these is a `LexFault`,
the stand-in for the panic.

`eval` sends identifiers, assignments, loops, functions and calls to its error arm, and
the model does the same (`Evaluator.UnsupportedNodes`).

The parser's lookahead guard at `src/parser.rs:84-88` always holds. As written, the parser
therefore reads past the end of every token vector the tokenizer produces
(`Parser.AsWrittenNeverParses`, first row of "## Findings"). `Parser.ParseFromAsWritten`
keeps that behaviour. `Parser.ParseFrom`, `Parser.Parser.ParseProgram` and the lemmas about
them use the End-token lookahead of that Findings row instead: past the last token the
next token is `Token::end()`. With that lookahead the parser's sample yields two
assignments and four errors; as written it reads past the end. The source's test expects
three errors: the End token that the tokenizer appends does not start an assignment, so it
records a fourth (`Parser.SampleProgram`).

The lexer's symbol constants are mis-encoded in the source text. They are decoded here to
the emoji they spell (for example ⬅️, ➕, ➖, ✖️, ➗, 🟰). Only their distinctness and
table membership matter to the scanner, and both are proved from the decoded glyphs.
`Token::end()`, which `src/parser.rs` calls but `src/lexer.rs` does not define, is taken
to be the End token with an empty literal.

## Model

| member | source | states |
|---|---|---|
| Tokens.From | src/types/token.rs:66-71 | the token stores exactly the given kind and literal |
| Tokens.FromStr | src/types/token.rs:73-75 | `from_str` gives the same token as `from` with the literal copied |
| Tokens.Start | src/types/token.rs:77-79 | the start token is of kind Start with an empty literal |
| Tokens.SpacesAreBlanksAndNewlines | src/types/token.rs:56-57 | SPACES is space and tab followed by the three NEWLINE entries, so it has five entries and contains "\r\n" |
| Tokens.DigitalsDenoteDigits | src/types/token.rs:54 | DIGITALS has ten entries and entry i is the keycap of digit i |
| Tokens.TablesAreDisjoint | src/types/token.rs:50-55 | no glyph is in two of RESERVED_SYMBOLS, DIGITALS, DOTS and SPACES, and the nine dots are pairwise different |
| Lexer.FixedSymbolRoundTrip | src/lexer.rs:63-78 | the sixteen fixed-symbol arms are a bijection: a grapheme maps to a kind exactly when that kind is written with that grapheme |
| Lexer.UnmatchedSymbolIsQuote | src/lexer.rs:36-39 | the only symbols with no fixed-symbol arm are 🗨️ and 💬 |
| Lexer.KindMatchesTables | src/lexer.rs:79-86 | the scanner's classification agrees with the tables: a closer is exactly 💬, a digit exactly a DIGITALS entry, a dot a DOTS entry, a blank a SPACES entry, and a letter exactly an `is_identifier_char` grapheme |
| Lexer.IsIdentifierChar | src/lexer.rs:124-129 | a grapheme in none of SYMBOLS, DIGITALS, DOTS and SPACES; see `Lexer.KindMatchesTables` |
| Lexer.CloseOf | src/lexer.rs:99-102 | the closing 💬 found is the first one at or after the start, and None means there is none |
| Lexer.RunLast | src/lexer.rs:108-111 | the run found is maximal: every grapheme inside continues it and the next one does not; None means it continues to the end of the input |
| Lexer.ScanAt | src/lexer.rs:61-88 | every step that does not fault resumes strictly after the current position and within the input |
| Lexer.HandleString | src/lexer.rs:96-104 | the loop gathers the graphemes strictly between 🗨️ and the next 💬 and stops on the 💬; with no 💬 left it faults with UnterminatedString |
| Lexer.RunContinuesAt | src/lexer.rs:108-129 | the loop test (digit or dot for numbers, `is_identifier_char` for identifiers) is exactly run continuation by kind |
| Lexer.HandleNumber | src/lexer.rs:106-113 | the literal is the concatenation of the maximal digit-or-dot run from the digit; a run reaching the end of the input faults with LookaheadPastEnd |
| Lexer.HandleIdentifier | src/lexer.rs:115-122 | the literal is the concatenation of the maximal run of identifier graphemes; a run reaching the end of the input faults with LookaheadPastEnd |
| Lexer.KindOf | src/lexer.rs:62-86 | the scanner's match arms, tried in order; what each kind means in terms of the tables is `Lexer.KindMatchesTables`, and the symbols left over are `Lexer.UnmatchedSymbolIsQuote` |
| Lexer.ScanStep | src/lexer.rs:61-87 | one pass of the loop body takes exactly the step `ScanAt` prescribes |
| Lexer.Tokenize | src/lexer.rs:55-93 | the loop produces exactly `Lex(chars)`: the tokens of all the steps in order, then End, or the first fault |
| Lexer.Lex | src/lexer.rs:55-93 | the tokens of a whole input, step by step from position 0: a successful scan ends with the End token with an empty literal; more in `Lexer.LexEndsWithOneEnd` and the token lemmas |
| Lexer.LexEndsWithOneEnd | src/lexer.rs:60-92 | a successful scan ends with one End token with an empty literal, and no other token is End |
| Lexer.BlankSkipped | src/lexer.rs:81-84 | a blank grapheme produces no token; scanning goes on at the next grapheme |
| Lexer.BlanksOnly | src/lexer.rs:81-91 | input that is blank from some position on yields only the End token from there |
| Lexer.FixedSymbolToken | src/lexer.rs:63-78 | a fixed symbol yields one token of its kind whose literal is the grapheme, then scanning resumes at the next grapheme |
| Lexer.StringToken | src/lexer.rs:79 | a 🗨️ yields a String token whose literal is the text strictly between it and the next 💬; scanning resumes after the 💬 |
| Lexer.UnterminatedStringFaults | src/lexer.rs:99-101 | a 🗨️ with no 💬 after it makes the scan fail with UnterminatedString at the 🗨️ |
| Lexer.NumberToken | src/lexer.rs:80 | a digit followed by a maximal digit-or-dot run yields one Number token spelling the run; scanning resumes after it |
| Lexer.IdentifierToken | src/lexer.rs:85 | a maximal run of identifier graphemes yields one Identifier token spelling the run; scanning resumes after it |
| Lexer.StrayGraphemeIsIllegal | src/lexer.rs:86 | a 💬 outside a string, or a dot not continuing a number, yields an Illegal token carrying that grapheme |
| Lexer.TrailingRunFaults | src/lexer.rs:106-122 | any input whose last grapheme is a digit or an identifier grapheme makes the scan fail |
| Lexer.CrLfIsIdentifierChar | src/lexer.rs:124-129 | "\r\n", one grapheme, is in none of the tables, so it is an identifier grapheme and not a blank |
| Lexer.CrLfScansAsIdentifier | src/lexer.rs:85 | a lone "\r\n" between two non-identifier graphemes scans as an Identifier token of its own |
| Parser.TokenLiteral | src/parser.rs:23-28 | `token_literal` of the three expression kinds: a program's is its first expression's or ""; properties in `Parser.ProgramComposition` |
| Parser.Str | src/parser.rs:30-64 | `string` of the three expression kinds; properties in `Parser.ProgramComposition` and `Parser.AssignmentString` |
| Parser.ProgramComposition | src/parser.rs:23-32 | splitting a program's expressions splits its text into the two parts' texts; expressions after the first never change its literal; wrapping an expression in any number of programs keeps its literal and its text |
| Parser.AssignmentString | src/parser.rs:56-64 | with the End-token lookahead of the Findings row for src/parser.rs:84-88, every parsed expression prints as "identifier op  ↙️" from the literals of an Identifier token and the Assign token after it in the input, with an empty value, and its literal is that Assign's |
| Parser.SemicolonFrom | src/parser.rs:119-121 | the Semicolon found is the first at or after the start, and None means there is none |
| Parser.IsTokenType | src/parser.rs:107-109 | `is_token_type`: whether the token is of the expected kind |
| Parser.ParseAssignExpression | src/parser.rs:111-127 | the assignment takes the Assign after the identifier as its token and the identifier's token and literal as its name, with no value; the cursor stops on the first Semicolon after it; with none left it reads past the end |
| Parser.Parser.constructor | src/parser.rs:72-74 | a new parser has no errors |
| Parser.Parser.ParseProgram | src/parser.rs:76-104 | with the End-token lookahead of the Findings row for src/parser.rs:84-88, the program holds exactly the parsed expressions in order and `errors` grows by exactly the parsed messages in order; a fault of the tokenizer or parser gives no program |
| Parser.ParseFrom | src/parser.rs:83-101 | with the End-token lookahead of the Findings row for src/parser.rs:84-88, the parse from a position, which `ParseProgram` is proved against: each token left yields at most one expression or one error |
| Parser.AssignmentAt | src/parser.rs:90-93 | with the End-token lookahead of the Findings row for src/parser.rs:84-88, an Identifier followed by Assign yields one assignment built from those two tokens; parsing resumes after the next Semicolon, skipping the tokens between without errors; with no Semicolon it reads past the end |
| Parser.OtherTokenAt | src/parser.rs:94-98 | with the End-token lookahead of the Findings row for src/parser.rs:84-88, any other token records exactly one error "Unkown syntax " followed by its literal, and parsing resumes at the next token |
| Parser.ParsedShape | src/parser.rs:90-127 | with the End-token lookahead of the Findings row for src/parser.rs:84-88, every parsed expression is an assignment whose token is an Assign, whose name is an Identifier with its own literal and whose value is absent; every error names one of the tokens; together there are no more of them than tokens |
| Parser.NoAssignmentAllErrors | src/parser.rs:83-101 | with the End-token lookahead of the Findings row for src/parser.rs:84-88, tokens in which no Identifier is followed by Assign give no expressions and one error per token, in order |
| Parser.SemicolonsMakeParseSucceed | src/parser.rs:84-88 | with the end-token lookahead, every token vector in which each Assign has a Semicolon after it parses |
| Parser.NextTokenAsWritten | src/parser.rs:84-88 | the lookahead as written faults exactly at the last token, and everywhere else gives the same token as the End-token lookahead |
| Parser.ParseFromAsWritten | src/parser.rs:83-101 | the parse with the lookahead as written: whenever it succeeds it is the parse with the End-token lookahead |
| Parser.AsWrittenReadsPastEnd | src/parser.rs:84-88 | with the lookahead as written, every token vector whose last token is not a Semicolon reads past the end |
| Parser.AsWrittenNeverParses | src/parser.rs:84-88 | as written, the tokens of every input the tokenizer accepts (ending in End) fail to parse |
| Parser.SampleProgram | src/parser.rs:133-151 | with the End-token lookahead of the Findings row for src/parser.rs:84-88, the sample's tokens (transcribed, see "## Left out") give two expressions whose literal is ⬅️, and the errors of the three stray tokens and of End; as written they fail to parse |
| Nodes.PrecedenceOrder | src/types/node.rs:3-14 | precedence is a strict total order in the chain Lowest < Or < And < Equals < LessGreater < Sum < Product < Prefix < Call |
| Nodes.OperatorPrecedenceTable | src/types/node.rs:18-36 | each precedence belongs to exactly its operator group (Or, And, equalities, comparisons, additive, multiplicative, left parenthesis); every other token binds Lowest, and none binds Prefix |
| Nodes.OperatorPrecedence | src/types/node.rs:18-36 | `get_operator_precedence`: no token binds with Prefix precedence; the whole table is characterised by `Nodes.OperatorPrecedenceTable` |
| Nodes.TokenLiteral | src/types/node.rs:119-168 | `token_literal`: a program's is its first statement's or "", every other node's its own token's; properties in `Nodes.ProgramNesting` |
| Nodes.ProgramNesting | src/types/node.rs:119-124 | wrapping a node in any number of programs keeps its literal and its text, and statements after the first never change a program's literal |
| Nodes.Str | src/types/node.rs:170-272 | `string`, the canonical text of every node; properties in `Nodes.ProgramTextAppend`, `Nodes.IntegerLiteralText`, `Nodes.MoonsBalance`, `Nodes.FunctionText` |
| Nodes.ProgramTextAppend | src/types/node.rs:172-189 | splitting the statements of a program or a block splits their text into the two parts' texts |
| Nodes.IntegerLiteralText | src/types/node.rs:191-195 | an integer prints as the keycap of each character of its decimal text, a '-' included, and the text read back from the keycaps is the integer |
| Numerals.UnkeycapsKeycaps | src/types/node.rs:191-195 | stripping the keycap marks from the keycap text gives back the original characters |
| Nodes.JoinAppend | src/types/node.rs:251-255 | joining two non-empty runs of texts is joining each run with the separator between them |
| Nodes.MoonsBalance | src/types/node.rs:190-270 | in the text of any prefix, infix and call tree over identifiers and non-float literals whose own texts hold no moon, 🌜 and 🌛 occur equally often |
| Nodes.FunctionText | src/types/node.rs:241-257 | a named function literal prints as the anonymous one with the name and a space inserted after "token " and before 🌜 |
| Objects.InspectRendering | src/types/object.rs:12-21 | a returned value renders as what it wraps, Null as "null", an integer as decimal text that reads back to it, a boolean as "true"/"false", a string as itself |
| Objects.Inspect | src/types/object.rs:12-21 | `inspect`; its rendering per variant is `Objects.InspectRendering` |
| Numerals.DecimalRoundTrip | src/types/object.rs:14 | the decimal text of every integer reads back to that integer |
| Objects.ObjEqStructural | src/types/object.rs:1-9 | derived equality never relates values of different variants, compares return values by what they wrap, and without floats is identity |
| Objects.ObjEq | src/types/object.rs:1-9 | the derived `PartialEq` on objects; properties in `Objects.ObjEqStructural` and `Objects.ObjEqSymmetric` |
| Objects.ObjEqSymmetric | src/types/object.rs:1-9 | the derived equality is symmetric, floats and return values included |
| Floats.NegateMirrors | src/evaluator.rs:68 | float negation keeps NaN-ness, mirrors the order and undoes itself |
| Floats.Eq | src/evaluator.rs:115-116 | f64 `==`, false whenever a NaN is involved; properties in `Floats.ComparisonLaws` and `Floats.ZerosAreNumbers` |
| Floats.Lt | src/evaluator.rs:117-120 | f64 `<` (and `>` with the operands swapped); properties in `Floats.ComparisonLaws` |
| Floats.Le | src/evaluator.rs:118-120 | f64 `<=` (and `>=` with the operands swapped); properties in `Floats.ComparisonLaws` |
| Floats.Positive | src/evaluator.rs:56 | `value > 0.0`; `Floats.ComparisonLaws` shows it is `0.0 < value` |
| Floats.ComparisonLaws | src/evaluator.rs:115-120 | a NaN is equal to nothing, itself included, and ordered with nothing; any other number equals itself; between two numbers exactly one of `<`, `==`, `>` holds, and `<=` is `<` or `==`; `> 0.0` is `0.0 <` |
| Floats.ZerosAreNumbers | src/evaluator.rs:115-116 | 0.0 and -0.0 are numbers, both order as 0, and -0.0 == 0.0 |
| Evaluator.InfixOpRoundTrip | src/evaluator.rs:92-104 | each operator text selects exactly the arm of its own operator |
| Evaluator.ToBoolObject | src/evaluator.rs:141-143 | the shared TRUE or FALSE is the boolean of the argument |
| Evaluator.TruncDivision | src/evaluator.rs:96-97 | Rust's `/` and `%` split the dividend: divisor × quotient + remainder, the remainder smaller than the divisor and of the dividend's sign |
| Evaluator.DivisionInRange | src/evaluator.rs:96-97 | quotient and remainder of i64 values fit in i64 except for i64::MIN by -1 |
| Evaluator.Eval | src/evaluator.rs:3-18 | `eval`: a returned value only comes out of a node with a return statement in its statements, expression or branches |
| Evaluator.EvalPrefix | src/evaluator.rs:42-71 | it aborts exactly on the negation of i64::MIN, and its value is a number or a boolean |
| Evaluator.EvalInfix | src/evaluator.rs:73-89 | only integer operands can abort, and the value is a number or a boolean |
| Evaluator.EvalFloatInfix | src/evaluator.rs:108-123 | never aborts; the only error is an unknown operator; arithmetic gives floats and comparisons booleans |
| Evaluator.EvalIntegerInfix | src/evaluator.rs:91-106 | the only error is an unknown operator; arithmetic gives integers and comparisons booleans; only arithmetic aborts |
| Evaluator.Truthy | src/evaluator.rs:50-63 | whatever `not` counts as true also holds as an if-condition |
| Evaluator.ConditionHolds | src/evaluator.rs:125-139 | exactly the shared NULL and FALSE fail as an if-condition |
| Evaluator.EvalProgram | src/evaluator.rs:20-29 | the loop gives the program's outcome: the first returned value unwrapped, else the last statement's outcome, else the empty-statements error |
| Evaluator.EvalBlockStatements | src/evaluator.rs:31-40 | the loop gives the block's outcome: the first returned value still wrapped, else the last statement's outcome |
| Evaluator.BlockOutcome | src/evaluator.rs:31-40 | a block's outcome is that of the first statement that returns or aborts, or of the last; earlier values and errors are discarded; no statements give the empty-statements error |
| Evaluator.ProgramIsUnwrappedBlock | src/evaluator.rs:20-40 | a program runs its statements exactly as a block does and unwraps the returned value it stops at |
| Evaluator.ProgramOutcome | src/evaluator.rs:20-29 | a program's outcome is the first returned value unwrapped, or the last statement's outcome; no statements give the empty-statements error |
| Evaluator.NotNegates | src/evaluator.rs:50-63 | ⏸️ gives the negated truth value (positive numbers, true, non-empty strings) as a boolean, so applied twice it gives the truth value; 0, "" and Null are false; a returned value is an error |
| Evaluator.MinusNegates | src/evaluator.rs:42-71 | ➖ negates integers and floats and applied twice gives the number back; negating i64::MIN aborts; any other operand is an error; any other prefix operator is an error |
| Evaluator.IntegerDivision | src/evaluator.rs:96-97 | integer ➗ and 〰️ are truncating division and remainder; dividing by zero aborts, and so does i64::MIN by -1 |
| Evaluator.AddSubtractInverse | src/evaluator.rs:93-94 | integer ➕ aborts on overflow, and otherwise ➖ of the same right operand undoes it |
| Evaluator.IntegerComparisons | src/evaluator.rs:100-103 | ◀️ is the integer order, ▶️ is ◀️ with the operands swapped, and ▶️🟰 and ◀️🟰 are the negations of ◀️ and ▶️ |
| Evaluator.IntegerTrichotomy | src/evaluator.rs:98-103 | on all i64 pairs exactly one of ◀️, 🟰, ▶️ holds; 🟰 holds exactly of equal values and ❗🟰 exactly when 🟰 does not; ▶️🟰 is ▶️ or 🟰, and ◀️🟰 is ◀️ or 🟰 |
| Evaluator.UnknownOperator | src/evaluator.rs:91-123 | a text that names no operator is an error on integers and on floats |
| Evaluator.OperandSwap | src/evaluator.rs:73-123 | on all pairs of values 🟰 and ❗🟰 are symmetric, ▶️ is ◀️ with the operands swapped and ▶️🟰 is ◀️🟰 swapped, mixed integer and float operands included |
| Evaluator.NotEqualNegatesEqual | src/evaluator.rs:73-89 | on every pair of values ❗🟰 gives a boolean that negates what 🟰 gives |
| Evaluator.NegatedCondition | src/evaluator.rs:125-139 | negating a boolean condition with ⏸️ swaps the branches of an if, and a failing condition fails both forms alike; for a condition evaluating to 0 the negated if still takes the consequence and the swapped one the alternative, because ⏸️ counts 0 as false and the if counts it as holding |
| Evaluator.ArithmeticNeverErrs | src/evaluator.rs:11-12 | integer arithmetic (literals under ➖, ➕, ➖, ✖️, ➗, 〰️) never meets a type error: it gives an integer or aborts, operand failures propagating to the whole expression |
| Evaluator.MultiplySubtractOverflow | src/evaluator.rs:94-95 | integer ✖️ and ➖ give the exact result exactly when it fits in i64 and abort otherwise; ✖️ is commutative, overflow included; ➖ is ➕ of the negated right operand |
| Evaluator.UnsupportedNodes | src/evaluator.rs:16 | identifiers, assignments, loops, functions and calls evaluate to the invalid-node error |
| Util.StatefulVector.New | src/util.rs:14-19 | a new vector is empty with the cursor at 0 |
| Util.StatefulVector.FromVec | src/util.rs:21-26 | the vector holds the given elements with the cursor at 0 |
| Util.StatefulVector.First | src/util.rs:32-34 | the first element, present exactly when the vector is non-empty |
| Util.StatefulVector.Last | src/util.rs:36-38 | the last element, present exactly when the vector is non-empty |
| Util.StatefulVector.Current | src/util.rs:40-46 | the element under the cursor, present exactly when the cursor is below the length; with the cursor in range, exactly when the vector is non-empty |
| Util.StatefulVector.HasPrevious | src/util.rs:102-104 | panics exactly at position 0; otherwise answers whether position - 1 indexes an element |
| Util.StatefulVector.IsNextMatch | src/util.rs:70-76 | true exactly when there is an element after the cursor and the test holds of it |
| Util.StatefulVector.IsNextEq | src/util.rs:66-68 | true exactly when there is an element after the cursor and it equals the expected one |
| Util.StatefulVector.ToVec | src/util.rs:110-112 | the elements, unchanged and in order |
| Util.StatefulVector.IsEmpty | src/util.rs:28-30 | whether there are no elements |
| Util.StatefulVector.IsPosValid | src/util.rs:114-116 | a position is valid exactly when it indexes an element |
| Util.StatefulVector.HasNext | src/util.rs:98-100 | there is a next element exactly when the cursor plus one indexes an element |
| Util.StatefulVector.ToNext | src/util.rs:48-55 | with a next element the cursor moves onto it and returns it; otherwise None and the cursor stays; the vector never changes and the cursor stays in range |
| Util.StatefulVector.ToPrevious | src/util.rs:57-64 | as written: panics at position 0; otherwise the mirror of `to_next` |
| Util.StatefulVector.ToPreviousChecked | src/util.rs:57-64 | with the underflow guarded: at position 0 it returns None and stays; otherwise the mirror of `to_next` |
| Util.StatefulVector.Push | src/util.rs:78-80 | appends the element at the end; the cursor stays |
| Util.StatefulVector.Pop | src/util.rs:82-88 | as written: removes and returns the last element and pulls an out-of-range cursor back to the new last index; popping the only element panics |
| Util.StatefulVector.PopClamped | src/util.rs:82-88 | removes and returns the last element and clamps the cursor to the new last index, or 0; the cursor stays in range |
| Util.StatefulVector.Insert | src/util.rs:90-92 | `Vec::insert`: shifts the later elements right, or panics past the end; the cursor stays |
| Util.StatefulVector.Remove | src/util.rs:94-96 | `Vec::remove`: returns the element and shifts the later elements left, or panics on a bad index; the cursor stays |
| Util.PopOnlyElementPanics | src/util.rs:82-88 | popping the only element of a fresh vector panics as written |
| Util.PopOnlyElementEmpties | src/util.rs:82-88 | with the clamp, the same pop returns the element and leaves an empty vector with the cursor at 0 |
| Util.PreviousAtStartPanics | src/util.rs:102-104 | stepping back from the start of a fresh vector panics as written |
| Util.NextThenPrevious | src/util.rs:48-64 | with the guard, on a fresh vector: stepping back at the start gives None, and stepping forward then back returns to the first element |
| Util.StepBackUndoesStep | src/util.rs:48-64 | with the guard, on any vector: a successful step forward followed by a step back restores the cursor and the elements and returns the element the cursor was on |

## Left out

- `src/main.rs`, `src/repl.rs` and `src/types.rs` are not part of this model. They hold environment lookup, console I/O and re-exports.
- Grapheme segmentation (`graphemes(true)`, from an external Unicode library) is not modelled. The tokenizer takes the grapheme sequence as its input.
- Floating-point arithmetic, the `i64 as f64` conversion and `f64::to_string` are host parameters (`HostFloat`). Only sign, NaN, negation and comparison are defined from the bits. `FloatLiteral` printing and `Object::Float` inspection therefore rest on the host's rendering.
- The evaluator's own test (`src/evaluator.rs:146-169`) is not replayed. It drives a newer lexer and parser API that is not part of this model.
- The lexer's sample test (`src/lexer.rs:155-172`) is not replayed as a single proof about the literal input. The whole grapheme sequence is too costly for the verifier. Every step it takes is covered by the general lemmas `Lexer.IdentifierToken`, `Lexer.FixedSymbolToken`, `Lexer.NumberToken`, `Lexer.StringToken` and `Lexer.BlankSkipped`.
- The unused `Precedence` enum and `Expression` trait in `src/parser.rs:3-16` have no behaviour. The trait's implementations are the `Expression` datatype.
- `StatefulVector::iter` and `Default` are not modelled separately. `iter` only borrows the elements, which `ToVec` returns. `Default` is `New`.
- Util.StatefulVector.HasNext: `position + 1` is not checked for `usize` overflow. The cursor never exceeds the length.
- Util.StatefulVector.Remove: does not promise that the cursor stays in range. The source leaves it past the end after removing the last element, and the model does the same.
- Parser.SampleProgram: its tokens (`SAMPLE_TOKENS`) are transcribed from the test source at `src/parser.rs:135-140`, not derived by `Lexer.Lex` from its graphemes. The cost of the derivation is the same as for the lexer's sample test.
- The exact bytes of the mis-encoded lexer constants are not modelled. They are decoded to the glyphs they spell.

## Findings

| source | as written | input that shows it | evidently intended | confidence | as-written member | corrected member |
|---|---|---|---|---|---|---|
| src/parser.rs:84-88 | the guard `pos < tokens.len() + 1` always holds, so at the last token `tokens[pos + 1]` is read past the end | any tokenized input, e.g. the sample of the parser's test: its last token is End | past the last token the lookahead is `Token::end()`, the else branch; even then the test's `errors.len() == 3` at src/parser.rs:150 does not hold, since End records a fourth error (`Parser.SampleProgram`) | not executed | Parser.AsWrittenNeverParses | Parser.SemicolonsMakeParseSucceed |
| src/util.rs:82-88 | after popping the only element the cursor is set to `len - 1` with `len == 0`, a `usize` underflow | `from_vec(vec![x])` then `pop()` | the cursor clamps to 0 on the now empty vector | not executed | Util.PopOnlyElementPanics | Util.PopOnlyElementEmpties |
| src/util.rs:102-104 | `has_previous` computes `position - 1` on a `usize`, so `to_previous` at position 0 underflows instead of answering None | `from_vec(v)` then `to_previous()` | at position 0 there is no previous element: None, cursor unchanged | not executed | Util.PreviousAtStartPanics | Util.NextThenPrevious |
