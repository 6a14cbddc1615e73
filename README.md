# A verified model of a tiny interpreter

The interpreter reads a program text made of `let NAME = EXPR;` and
`exit EXPR;` statements, where an expression is integer literals and names
joined by `+ - * /`. It runs the text in three stages.

- **Tokenizer** (`Tokenization`). One left-to-right scan turns the text into
  a token vector:
  - whitespace is skipped;
  - a maximal digit run becomes an integer-literal token;
  - a maximal letter/digit run that starts with a letter becomes a keyword
    (`let`, `exit`) or an identifier;
  - each of `+ - * / = ;` becomes a one-character token;
  - any other character is dropped;
  - a single end marker closes the vector.
- **Parser** (`Parsing`). A `Parser` object holds the token vector and a
  cursor. `ParseProgram` collects statements until the end marker. The
  routines for primaries, expressions, `let` and `exit` move the cursor.
  Expressions have no precedence: `2+3*4` is `(2+3)*4`. The parser never
  checks the kind of the `=` and `;` tokens; it just consumes them.
- **Evaluator** (`Evaluation`). An `Interpreter` object owns a map from
  names to ints.
  - `EvalNode` walks the tree recursively. It evaluates the left operand
    before the right one.
  - `let` binds a name. `exit` ends the process with the value as exit
    code. An unbound name or an unknown operator is an error.
  - `EvalProgram` runs the statements in order and yields the value of the
    last one, or 0 when there are none.
  - The map persists across calls, which is how the REPL carries bindings
    from one line to the next.

The AST (`Ast`) is one inductive datatype with five node kinds. In the
source it is a polymorphic class hierarchy (`include/parser.h`), and in the
header-only variant (`src/parser.hpp`) a tagged union. Both variants have
the same five kinds and the same tags. `Pipeline` chains the three stages.

Each stateful routine has two parts:
- a Dafny `method` with the source's loops and fields;
- a pure function that specifies it.

Every method is proved equal to its specification function:
- `Tokenize` equals `Tokens`;
- `ParseExpr` agrees with `ExprAt` on both the result and the final cursor;
- `EvalNode` equals `Eval`;
- `EvalProgram` equals `Run`.

The lemmas then state what the source promises about those functions.

Modelling choices where C++ leaves things undefined:
- **Integer arithmetic.** `+ - *` take the exact result reduced to 32-bit
  two's complement. `/` truncates toward zero and is reduced the same way,
  so `INT_MIN / -1` is `INT_MIN`. A zero divisor is the error
  `DivisionByZero`.
- **Reading past the token vector.** A read of `m_tokens[m_index]` with the
  cursor at the end is the error `PastEnd`. The tokenizer always emits an
  end marker, so this can only happen through a malformed statement such as
  `let x` at the end of the text.
- **Exceptions and `std::exit`.** A thrown `std::runtime_error` is an `Err`
  or `Fail` value. `std::exit(code)` is the outcome `Halt(code)`, which stops
  the enclosing expression, statement and program.

Three behaviours of the code are worth stating outright:
- `parse_let` and `parse_exit` consume the `=` and `;` positions without
  looking at them, so any token standing there is accepted
  (`ParsingProperties.LetIgnoresSeparators`,
  `ParsingProperties.ExitIgnoresTerminator`).
- A statement start other than `let` or `exit` is rejected by
  `src/parser.cpp`, but the header-only loop in `src/parser.hpp` never moves
  past that token (see Findings).
- The REPL in `src/main.cpp` calls `parse_program` outside its `try` block,
  so only evaluation errors are caught; a parse error escapes the loop.

## Model

| member | source | states |
|---|---|---|
| Tokenization.Tokenize | src/tokenization.cpp:8-59 | the index loop computes exactly `Tokens(input)`, the scan followed by one end marker |
| Tokenization.Tokens | src/tokenization.cpp:8-59 | the vector ends in the end marker, and no earlier token is one; every token is well formed for its kind (a digit run, a word other than a keyword, a keyword's own text, one punctuation character); there are at most `|input| + 1` tokens; the token texts, concatenated, are the input with whitespace and unrecognised characters removed |
| Tokenization.SkipDigits | src/tokenization.cpp:21-24 | the inner loop stops just past the maximal digit run |
| Tokenization.SkipAlnums | src/tokenization.cpp:30-33 | the inner loop stops just past the maximal letter/digit run |
| Tokenization.DigitRunEnd | src/tokenization.cpp:23-24 | every character in `[i, j)` is a digit and the character at `j`, if any, is not |
| Tokenization.AlnumRunEnd | src/tokenization.cpp:32-33 | every character in `[i, j)` is a letter or digit and the character at `j`, if any, is not |
| Tokenization.ScanWellFormed | src/tokenization.cpp:25-51 | every scanned token is well formed for its kind |
| Tokenization.ScanLength | src/tokenization.cpp:12-55 | the scan from `i` yields at most one token per remaining character |
| Tokenization.ScanValues | src/tokenization.cpp:12-55 | the scanned texts, concatenated, are the kept characters of the rest of the input, in order |
| Tokenization.KeptAppend | src/tokenization.cpp:12-55 | filtering the kept characters distributes over concatenation |
| Tokenization.KeptAlnum | src/tokenization.cpp:30-34 | a letter/digit run is kept whole |
| Tokenization.ScanSkipsSpace | src/tokenization.cpp:15-18 | a whitespace character yields no token |
| Tokenization.ScanNumber | src/tokenization.cpp:21-26 | a digit starts one integer token holding the maximal digit run |
| Tokenization.ScanWord | src/tokenization.cpp:30-41 | a letter starts one token holding the maximal letter/digit run, typed `Let` or `Exit` for the keywords and `Ident` otherwise |
| Tokenization.ScanSymbol | src/tokenization.cpp:45-54 | each of `+ - * / = ;` yields one token whose text is that character; any other character is dropped |
| Tokenization.Kept | src/tokenization.cpp:12-55 | the kept characters are never more than the input |
| Ast.Tag | include/parser.h:9-48 | the type tag each constructor sets matches the node's kind in both directions, as in parser.cpp:6-29 and the tagged-union constructors of parser.hpp |
| Ast.LeftLeaningIsExpr | src/parser.cpp:58-67 | a tree of the shape `parse_expr` builds contains no `let` or `exit` and binds no name |
| Ast.FoldSnoc | src/parser.cpp:60-65 | folding one more operator step wraps the tree built so far as the new left operand |
| Ast.FoldOfSpine | src/parser.cpp:58-67 | every tree is the left fold of its leftmost operand and the operator steps along its left spine |
| Parsing.SkipSpaces | src/parser.cpp:71 | the leading-whitespace skip of `std::stoi` stops at the first non-space |
| Parsing.PrimaryAt | src/parser.cpp:69-75 | a successful primary is a literal or identifier and takes one token; a failure is only past-the-end, not-a-primary or a literal that `std::stoi` rejects |
| Parsing.ExprTail | src/parser.cpp:60-66 | the operator loop stops inside the vector, at or after where it started |
| Parsing.ExprAt | src/parser.cpp:58-67 | a parsed expression takes at least one token and stops before the end of the vector |
| Parsing.LetAt | src/parser.cpp:77-84 | a parsed `let` takes at least one token; the only failures are those of its expression, or reading past the end |
| Parsing.ExitAt | src/parser.cpp:86-91 | a parsed `exit` takes at least one token; the only failures are those of its expression, or reading past the end |
| Parsing.StatementAt | src/parser.cpp:39-40 | dispatching on `let`/`exit` fails only as the statement routines do |
| Parsing.Parser.constructor | src/parser.cpp:32-33 | a new parser holds the given token vector with the cursor at 0 (the `m_index = 0` initialiser at include/parser.h:58) |
| Parsing.Parser.Check | src/parser.cpp:50-52 | whether the token under the cursor has the given type; past the end is an error |
| Parsing.Parser.Match | src/parser.cpp:46-48 | the same test as `check`, and the cursor does not move |
| Parsing.Parser.Consume | src/parser.cpp:54-56 | returns the token under the cursor and advances by one; past the end is an error that leaves the cursor in place |
| Parsing.Parser.ParsePrimary | src/parser.cpp:69-75 | result and final cursor agree with `PrimaryAt` |
| Parsing.Parser.ParseExpr | src/parser.cpp:58-67 | result and final cursor agree with `ExprAt` |
| Parsing.Parser.ParseLet | src/parser.cpp:77-84 | result and final cursor agree with `LetAt` |
| Parsing.Parser.ParseExit | src/parser.cpp:86-91 | result and final cursor agree with `ExitAt` |
| Parsing.Parser.ParseStatements | src/parser.cpp:36-44 | the statement loop yields `ProgramFrom` from the starting cursor, for either loop variant |
| Parsing.Parser.ParseProgram | src/parser.cpp:36-44 | `parse_program` yields `ProgramFrom(tokens, start, [], true)`: the statements up to the end marker, or the first error |
| Parsing.Parser.ParseProgramHeaderOnly | src/parser.hpp:98-106 | the header-only `parse_program` yields `ProgramFrom(tokens, start, [], false)`, with `Spins` where that loop never terminates |
| ParsingProperties.ExprTailShape | src/parser.cpp:60-65 | the operator loop keeps the tree left-leaning, and each operator it adds takes two tokens |
| ParsingProperties.ExprShape | src/parser.cpp:58-67 | `parse_expr` builds a left-leaning tree, and k operators take 2k + 1 tokens |
| ParsingProperties.ExprTailReads | src/parser.cpp:60-65 | the loop extends the spine of the tree it was given; step k comes from the operator token and primary at offset 2k; it stops at a non-operator |
| ParsingProperties.ExprIsLeftFold | src/parser.cpp:58-67 | no precedence: the expression is the left fold of its first primary and the (operator text, primary) pairs read at positions i+1+2k, and parsing stops at the first non-operator |
| ParsingProperties.LetShape | src/parser.cpp:77-84 | the bound name is the text of the token after `let`; the expression starts three tokens later; k operators take 4 + 2k + 1 tokens |
| ParsingProperties.ExitShape | src/parser.cpp:86-91 | the expression starts right after `exit`; k operators take 2 + 2k + 1 tokens |
| ParsingProperties.ExprTailLocal | src/parser.cpp:60-65 | the operator loop depends only on the tokens it consumed and on the kind of the token it stopped at |
| ParsingProperties.LetIgnoresSeparators | src/parser.cpp:78-82 | replacing the `=` token or the `;` token of a parsed `let` with any token that is not an operator leaves the result unchanged |
| ParsingProperties.ExitIgnoresTerminator | src/parser.cpp:87-89 | replacing the `;` token of a parsed `exit` with any token that is not an operator leaves the result unchanged |
| ParsingProperties.ProgramShape | src/parser.cpp:36-44 | statements collected earlier stay in front, in order, and every statement parsed after them is a grammar `let` or `exit` |
| ParsingProperties.ProgramPrefix | src/parser.cpp:36-44 | the statements parsed from a position do not depend on the ones already collected, which are only prepended |
| ParsingProperties.HeaderOnlyAgrees | src/parser.hpp:98-106 | the two `parse_program` variants accept the same programs with the same statements; where the canonical one throws on an unexpected statement start, the header-only one spins at the same index; the canonical one never spins |
| ParsingProperties.HeaderOnlySpinsOnBareExpression | src/parser.hpp:100-104 | on the tokens of `x;` the header-only loop never leaves the first token, while the canonical loop rejects it |
| ParsingProperties.ExprTailOps | src/parser.cpp:62-64 | when every operator token's text is one of `+ - * /`, so is every operator in the tree |
| ParsingProperties.ProgramOps | src/parser.cpp:36-44 | under the same condition, every parsed statement uses only `+ - * /` |
| ParsingProperties.StoiOfDigits | src/parser.cpp:71 | on a digit run, `std::stoi` gives its decimal value, or an error when that exceeds `INT_MAX` |
| ParsingProperties.ParseIsDeterministic | src/parser.cpp:33-44 | two fresh parsers over the same tokens produce the same program |
| Evaluation.Wrap | src/interpreter.cpp:28-30 | the result is the int congruent to the exact value modulo 2^32, and is the exact value when that fits |
| Evaluation.Eval | src/interpreter.cpp:14-47 | bindings change only at names bound by `let` nodes inside the tree, and no other name appears; an expression without statements neither changes a binding nor exits |
| Evaluation.Interpreter.constructor | include/interpreter.h:10-16 | a new interpreter has no bindings |
| Evaluation.Interpreter.EvalNode | src/interpreter.cpp:14-47 | the outcome and the new bindings are exactly `Eval` of the node on the old bindings |
| Evaluation.Interpreter.EvalProgram | src/interpreter.cpp:6-12 | the outcome and the new bindings are exactly `Run` of the statements on the old bindings |
| EvaluationProperties.TruncDivRemainder | src/interpreter.cpp:31 | C++ division: the remainder is smaller than the divisor in magnitude and has the sign of the dividend, and the quotient never overshoots |
| EvaluationProperties.QuotientFits | src/interpreter.cpp:31 | apart from `INT_MIN / -1`, the quotient of two ints is an int, and `/` yields it unchanged |
| EvaluationProperties.QuotientOverflow | src/interpreter.cpp:31 | `INT_MIN / -1` wraps to `INT_MIN` |
| EvaluationProperties.ApplyFails | src/interpreter.cpp:28-32 | an operator fails exactly when it is not one of `+ - * /`, or is `/` with a zero divisor; the unknown-operator error happens exactly for an unknown operator; no operator exits |
| EvaluationProperties.ApplyExact | src/interpreter.cpp:28-30 | `+ - *` give the exact result whenever it fits an int |
| EvaluationProperties.LetBinds | src/interpreter.cpp:35-40 | `let x = e` yields e's value and binds x to it; when e fails, nothing is bound |
| EvaluationProperties.ExitHalts | src/interpreter.cpp:42-44 | `exit e` halts with e's value as exit code and binds nothing |
| EvaluationProperties.KnownOpsNeverUnknown | src/interpreter.cpp:25-33 | a tree whose operators are all `+ - * /` never reports an unknown operator |
| EvaluationProperties.EvalFold | src/interpreter.cpp:25-33 | evaluating a left fold is accumulating its operands from the left, stopping at the first error |
| EvaluationProperties.SpineOperandsArePrimary | src/parser.cpp:58-67 | in a left-leaning tree, the leftmost operand and every right operand along the spine are primaries |
| EvaluationProperties.EvalLeftToRight | src/interpreter.cpp:25-33 | a parsed expression's value is its operands combined strictly left to right with no precedence, as in the independent accumulator `Accumulate` |
| EvaluationProperties.RunAppend | src/interpreter.cpp:6-12 | running p + q runs p, and then q from the bindings and value p left, unless p stopped |
| EvaluationProperties.NothingAfterStop | src/interpreter.cpp:6-12 | once a statement exits or fails, no later statement runs |
| EvaluationProperties.LastStatementValue | src/interpreter.cpp:6-12 | a program's value is its last statement's value, evaluated on the bindings the earlier statements left |
| EvaluationProperties.SessionPersists | src/interpreter.cpp:6-12 | evaluating a second non-empty program on the same interpreter equals evaluating the two programs joined (as the REPL in src/main.cpp:32-53 relies on) |
| EvaluationProperties.FailureKeepsBindings | src/interpreter.cpp:6-12 | a program that fails in its last expression keeps the bindings its earlier statements made |
| EvaluationProperties.RunKnownOps | src/interpreter.cpp:6-12 | a program whose operators are all `+ - * /` never reports an unknown operator |
| EvaluationProperties.Rebinding | src/interpreter.cpp:35-40 | binding a name twice leaves the later value |
| EvaluationProperties.IntLiteralProgram | tests/test_interpreter.cpp:28-33 | the program `42` yields 42 |
| EvaluationProperties.LetThenIdent | tests/test_interpreter.cpp:35-41 | `let x = 5` followed by `x` yields 5 |
| EvaluationProperties.BinaryExpressions | tests/test_interpreter.cpp:43-53 | four binary expressions yield the last one's value, 8/2 = 4 |
| EvaluationProperties.NestedBinaryExpression | tests/test_interpreter.cpp:55-63 | (1+2)*(5-3) yields 6 |
| EvaluationProperties.UndefinedVariable | tests/test_interpreter.cpp:65-70 | an unbound name fails with the undefined-variable error |
| EvaluationProperties.UnknownBinaryOp | tests/test_interpreter.cpp:72-77 | the operator `%` fails with the unknown-operator error |
| EvaluationProperties.ExitNodeExits | tests/test_interpreter.cpp:79-86 | `exit 42` halts with code 42 |
| Pipeline.TokensOperatorTexts | src/tokenization.cpp:45-49 | every operator token the tokenizer emits has the text `+`, `-`, `*` or `/` |
| Pipeline.ParsedProgramsAreWellFormed | src/main.cpp:22-29 | a program parsed from text is a sequence of grammar statements, and evaluating it never reports an unknown operator |
| Pipeline.RunSource | src/main.cpp:40-47 | one text through tokenizer, parser and interpreter: a parse error evaluates nothing and keeps the bindings; otherwise the outcome and bindings are `Run` of the parsed statements |
| Pipeline.ScanExample | src/tokenization.cpp:8-59 | the text `exit 2+3*4;` tokenizes to exit, 2, +, 3, *, 4, ;, end |
| Pipeline.StoiDigits | src/parser.cpp:71 | `std::stoi` of the literals 2, 3, 4 |
| Pipeline.ParseExample | src/parser.cpp:58-67 | those tokens parse to `exit (2+3)*4` |
| Pipeline.RunExample | src/interpreter.cpp:42-44 | `exit (2+3)*4` halts with code 20 |
| Pipeline.ExitExample | src/main.cpp:22-29 | the text `exit 2+3*4;` parses without precedence and halts with code 20 |

## Left out

- The file runner, the REPL loop, the prompt and all console output in
  `src/main.cpp` are I/O. Only the per-text chaining of the three stages is
  modelled (`Pipeline.RunSource`).
- In the REPL, a parse error is thrown outside the `try` block and ends the
  session. `RunSource` returns the error, and does not model how the process
  ends.
- `std::exit` ends the process. The model returns `Halt(code)` instead:
  - it does not model that the exit status is truncated to 8 bits by the
    operating system;
  - it does not model that pending output is flushed.
- `Evaluation.Apply`: signed overflow and division by zero are undefined
  behaviour in C++. The model picks wrap-around for overflow and an error
  value for a zero divisor. A real build may trap or do anything else.
- `Parsing.Parser.ParseProgramHeaderOnly`: where that loop spins for ever,
  the method returns `Err(Spins(i))`. It does not model non-termination.
- The header-only `Interpreter` in `src/interpreter.hpp` has the same
  `eval_node`/`eval_program` as `src/interpreter.cpp`, and the same model
  covers both. Its error messages differ slightly (it has no name in the
  text). Error texts are not modelled, only the error kind and the name or
  operator it carries.
- Memory ownership (`unique_ptr`, moves, the union destructor) has no
  counterpart. Trees are finite values without sharing.
- The unreachable "Unknown node type" branch of `eval_node` has no
  counterpart, because every `Node` is one of the five kinds.
- The commented-out code in `src/parser.hpp` and `src/interpreter.hpp` is
  not part of this model.
- Hashing in `std::unordered_map` does not matter here; the environment is a
  Dafny `map`.
- Characters are classified by the C-locale rules for ASCII. The source
  scans bytes; the model scans characters. A non-ASCII character is neither
  space, letter nor digit in either, and is dropped.
- `std::stoi` throws `std::out_of_range` or `std::invalid_argument`. The
  model has one error, `BadIntLit`, with the token index.

## Findings

| source | as written | input that shows it | evidently intended | confidence | as-written member | corrected member |
|---|---|---|---|---|---|---|
| src/parser.hpp:100-104 | the header-only `parse_program` loop has no branch for a statement start other than `let`/`exit`, so the cursor never moves and the loop never ends | the tokens of the line `x;` (identifier, `;`, end marker) | reject the token, as `src/parser.cpp:41` does | high (not executed) | ParsingProperties.HeaderOnlySpinsOnBareExpression | Parsing.Parser.ParseProgram |

`Pipeline` uses the corrected loop, `Parsing.Parser.ParseProgram`.
`ParsingProperties.HeaderOnlyAgrees` states three things about the two
loops:
- they agree everywhere else;
- the corrected loop never spins;
- the header-only loop spins exactly where the corrected one reports the
  token.
