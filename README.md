# expr: an infix calculator, modelled and verified

The program reads one command-line argument such as `2+3*4`.
- `lexer.go` lexes it into tokens.
- `parser.go` parses it by recursive descent into a binary tree.
- `ast.go` removes the empty placeholder nodes the parser leaves behind (`Reduce`).
- `main.go` evaluates the tree (`Eval`) and prints the integer.

The model follows that pipeline module by module:

- `Wrappers`, `Bytes`: `Option`, and a `Result` that is either a value or the Go runtime panic the code would raise (nil dereference, integer divide by zero, index out of range); Go strings as byte sequences.
- `GoArith`: Go's truncating `/`, `int(math.Pow(...))` on integers, `strconv.Atoi` with the error ignored, and `strconv.Itoa`, which the program does not call and which serves only to state a round trip of `Atoi` over all integers.
- `Lexer`: the token types, a `TokenStream` class whose `Empty`/`Peek`/`Pop` methods work on its `values` field, and `Lex` as a loop. Lexing is proved correct against a functional definition, `Tokens`: the lexemes join back into the input, numbers are munched maximally, and the lexing of a string is unique.
- `Ast`: the tree as a datatype, `Reduce`, and the method `ASTNode.Eval`.
- `Grammar`: the grammar in the header comment of `parser.go`, written as one function per production over a token sequence. Each function returns the node the Go function leaves in its parent, plus the unread tokens, or the panic.
- `Parser`: the Go functions as methods that pop from a shared `TokenStream`. Each is proved to agree with its `Grammar` production.
- `Syntax`: a reference abstract syntax for the expressions the grammar describes. For each expression it gives the printed bytes, the tokens, the tree the parser should build and the value. Literals are printed by `GoArith.FormatNat`, a reference decimal printer that is not part of the program; `GoArith.DecimalValueOfFormat` proves that `Atoi`'s digit accumulation reads it back.
- `Parsing`, `Printing`, `Evaluation`: the three theorems that tie the pipeline to the reference syntax.
  - The parser builds the intended tree for every expression, with `+ -` and `* /` grouping left, `^` grouping right, and a leading `-` negating one atom.
  - The printed form lexes back to the expression's tokens.
  - Evaluating the tree gives the expression's value.
- `Program`: the package-level `Eval` of `main.go`, proved equal to the method, and the pipeline `main` runs on its argument, `Eval(Parse(Lex(expr)))`, with worked examples.

Go's panics are values of `Result`, so every partial operation has an error path instead of a precondition. For example, `Peek` on an empty stream returns `Panic(IndexOutOfRange)`, and division by zero gives `Panic(DivideByZero)`.

The code is followed where the program's documentation says otherwise:
- A label that is not an integer evaluates to 0, because `main.go:38` discards `Atoi`'s error. It is not a fatal error. The lexer does not skip spaces (`lexer.go:65-74`): a space starts a Number token, so ` 7` evaluates to 0.
- `parenExpr` pops whatever token follows a parenthesised expression (`parser.go:157`), not necessarily `)`.
- `-2^2` evaluates to -2. The `^2` is never read.

## Model

| member | source | states |
|---|---|---|
| `GoArith.Quo` | main.go:28-29 | Go's `/` on int: the remainder `a - q*b` is smaller than the divisor in magnitude and has the sign of the dividend, i.e. truncation toward zero |
| `GoArith.QuoUnique` | ast.go:88-89 | the truncated quotient is the only integer with that remainder property, so `Quo` is Go's division and not Euclidean division |
| `GoArith.FloatPow` | ast.go:91-92 | the `^` case, `int(math.Pow(...))` on integers: the exact power for a non-negative exponent; its negative-exponent behaviour is stated by `GoArith.FloatPowNegativeExponent` |
| `GoArith.FloatPowNegativeExponent` | ast.go:92 | for a negative exponent and non-zero base, the `^` case equals 1 divided by the exact power, truncated toward zero, as the float conversion gives it |
| `GoArith.PowerOfMinusOne` | ast.go:92 | (-1)^n is 1 for even n and -1 for odd n, the value `math.Pow(-1, n)` gives exactly |
| `GoArith.PowerGrows` | ast.go:92 | a base of magnitude at least 2 raised to a positive power has magnitude at least 2, so its reciprocal truncates to 0 |
| `GoArith.DecimalValueOfFormat` | main.go:37-39 | the decimal value of the formatted number is the number |
| `GoArith.Atoi` | ast.go:97-99 | `strconv.Atoi` with its error discarded; what it reads is stated by `GoArith.AtoiOfDigits`, `GoArith.AtoiRejects` and `GoArith.AtoiOfItoa` |
| `GoArith.AtoiRejects` | ast.go:98 | a byte that is not a digit, other than a leading sign, makes `Atoi` fail, and the discarded error leaves 0 |
| `GoArith.AtoiOfItoa` | ast.go:97-99 | `Atoi` reads back every integer `Itoa` writes, signs included |
| `GoArith.AtoiOfDigits` | ast.go:97-99 | `Atoi` of a non-empty digit string is its decimal value |
| `Lexer.OperatorKind` | lexer.go:48-62 | the lexer's switch: each of `+ - * / ^ ( )` maps to the token kind whose symbol is that byte; every other byte starts a number |
| `Lexer.DigitRun` | lexer.go:69-72 | the length of the leading run of ASCII digits: everything before it is a digit and the byte after it is not |
| `Lexer.DigitRunUnique` | lexer.go:69-72 | a run of digits followed by a non-digit or the end is exactly the digit run |
| `Lexer.Tokens` | lexer.go:40-79 | the token sequence of a string has at most one token per byte, and is empty exactly for the empty string |
| `Lexer.ConcatAppend` | lexer.go:50-74 | the lexemes of two token sequences joined are the two joins in order |
| `Lexer.ConcatTokens` | lexer.go:43-76 | the lexemes of `Tokens(s)` join back to exactly `s` |
| `Lexer.TokensLexS` | lexer.go:43-76 | `Tokens(s)` is a lexing of `s`: each operator token is its one symbol, each number token is a non-operator byte then digits, and no number is followed by a token starting with a digit (maximal munch) |
| `Lexer.LexingIsUnique` | lexer.go:43-76 | any token sequence with those properties is `Tokens(s)` |
| `Lexer.LexingOfRest` | lexer.go:44-46 | dropping the first token of a lexing leaves a lexing of the bytes after its lexeme |
| `Lexer.NumberHead` | lexer.go:65-74 | a leading Number token of a lexing starts with a non-operator byte and takes in exactly the digit run after it |
| `Lexer.NumberIsOneToken` | lexer.go:65-74 | a byte that is not an operator followed only by digits, a space then digits for instance, lexes to one Number token holding all of it |
| `Lexer.DigitsAreOneToken` | lexer.go:65-74 | a non-empty string of digits lexes to exactly one Number token holding all of it |
| `Lexer.TokenStream.constructor` | lexer.go:41 | a stream holds exactly the tokens it is created with |
| `Lexer.TokenStream.Empty` | lexer.go:25-27 | true exactly when the stream holds no tokens |
| `Lexer.TokenStream.Peek` | lexer.go:29-31 | the front token, stream unchanged; index-out-of-range panic on an empty stream |
| `Lexer.TokenStream.Pop` | lexer.go:33-37 | returns the front token and leaves exactly the remaining tokens in order; panics and changes nothing on an empty stream |
| `Lexer.ScanNumber` | lexer.go:66-72 | the digit loop: the lexeme starts with the first byte, the bytes after it are digits, lexeme and remaining input join back to the input, and the remaining input does not start with a digit |
| `Lexer.NumberStep` | lexer.go:65-74 | one number lexeme found by the loop is the first token of `Tokens`, and the rest lexes on |
| `Lexer.OperatorStep` | lexer.go:48-62 | an operator byte is a one-byte token followed by the tokens of the rest |
| `Lexer.Lex` | lexer.go:40-79 | the loop fills a fresh stream with exactly `Tokens(s)` |
| `Ast.Reduce` | ast.go:18-33 | the result of a successful reduction has no empty-labelled node with children; a tree whose empty nodes all have only a left child reduces without panic to a tree with no empty labels |
| `Ast.ReduceChild` | ast.go:26-31 | a present child stays present and reduced, and an absent one stays absent |
| `Ast.ReduceFixpoints` | ast.go:18-33 | `Reduce(n) == n` exactly when `n` is already reduced |
| `Ast.ReduceIdempotent` | ast.go:18-33 | reducing twice gives the same tree as reducing once |
| `Ast.ReducePreservesEval` | ast.go:22-23 | reduction does not change the value of a tree, nor the panic it raises |
| `Ast.Eval` | ast.go:72-101 | the method `ASTNode.Eval`; its value on every tree of the reference grammar is stated by `Evaluation.EvalSum`, its invariance under `Reduce` by `Ast.ReducePreservesEval`, its agreement with main.go's copy by `Program.Eval` |
| `Ast.EvalChild` | ast.go:72-73 | calling `Eval` on a nil child reads `n.Value` through nil and panics; covered by the same lemmas |
| `Ast.NonNumericLabelIsZero` | ast.go:97-99 | a node whose label is neither an operator nor starts with a digit or sign evaluates to 0 whatever its children: `Atoi`'s error is discarded, it is not fatal |
| `Ast.ReduceChildPreservesEval` | ast.go:26-31 | the same for an optional child |
| `Grammar.Expr` | parser.go:37-39 | `expr`: on success the rest is a suffix of the input that does not start with `+ - * /`; the node respects the placeholder shape |
| `Grammar.AddSubExpr` | parser.go:41-46 | `addSubExpr`: same facts, with the fold wrapped in an empty node |
| `Grammar.AddSubExprTail` | parser.go:48-65 | `addSubExprTail`: stops at the first token that is not `+`/`-` and leaves it unread |
| `Grammar.MulDivExpr` | parser.go:67-72 | `mulDivExpr`: the rest does not start with `*` or `/` |
| `Grammar.MulDivExprTail` | parser.go:74-91 | `mulDivExprTail`: stops at the first token that is not `*`/`/` |
| `Grammar.PowExpr` | parser.go:95-124 | `powExpr`: consumes at least one token |
| `Grammar.PowExprTail` | parser.go:126-151 | `powExprTail`: gives no node exactly when it consumes nothing, and stops before a token that is not `^` |
| `Grammar.ParenExpr` | parser.go:153-161 | `parenExpr`: consumes at least one token |
| `Grammar.Parse` | parser.go:30-35 | the parsed tree is reduced; for lexer-made tokens parsing panics only when the expression does and the result has no empty labels |
| `Grammar.TokensHaveLexemes` | lexer.go:43-76 | every token the lexer makes has a non-empty lexeme, so the lexer meets `Grammar.Parse`'s condition on every input |
| `Grammar.SuffixKeepsLexemes` | parser.go:49-54 | what is left of a stream of non-empty lexemes still has non-empty lexemes |
| `Parser.Parse` | parser.go:30-35 | the method leaves the result and the stream that `Grammar.Parse` describes |
| `Parser.Expr` | parser.go:37-39 | agrees with `Grammar.Expr`: same node, same remaining stream, or same panic |
| `Parser.AddSubExpr` | parser.go:41-46 | agrees with `Grammar.AddSubExpr` |
| `Parser.AddSubExprTail` | parser.go:48-65 | agrees with `Grammar.AddSubExprTail` |
| `Parser.MulDivExpr` | parser.go:67-72 | agrees with `Grammar.MulDivExpr` |
| `Parser.MulDivExprTail` | parser.go:74-91 | agrees with `Grammar.MulDivExprTail` |
| `Parser.PowExpr` | parser.go:95-124 | agrees with `Grammar.PowExpr` |
| `Parser.PowExprTail` | parser.go:126-151 | agrees with `Grammar.PowExprTail` |
| `Parser.ParenExpr` | parser.go:153-161 | agrees with `Grammar.ParenExpr` |
| `Parsing.ParseOfSum` | parser.go:30-35 | for every expression of the reference grammar, followed by any tokens that do not start with an operator, `Parse` returns the intended reduced tree and leaves exactly those tokens |
| `Parsing.ExprOfSum` | parser.go:37-46 | `expr` on such input yields the tree: terms joined by `+`/`-` fold to the left |
| `Parsing.SumTailParse` | parser.go:48-65 | each `+`/`-` makes a node whose left child is the tree built so far (left associativity) |
| `Parsing.SumTailParseLink` | parser.go:56-64 | the same, for a chain with at least one operator |
| `Parsing.MulDivOfTerm` | parser.go:67-72 | `mulDivExpr` yields the term's tree; its operands are `powExpr` results (precedence) |
| `Parsing.TermTailParse` | parser.go:74-91 | `*`/`/` fold to the left |
| `Parsing.TermTailParseLink` | parser.go:82-90 | the same, for a chain with at least one operator |
| `Parsing.PowOfFactor` | parser.go:95-124 | `powExpr` yields the factor's tree |
| `Parsing.PowerParse` | parser.go:106-123 | `a^b^c` becomes `a^(b^c)`; an operand with no `^` after it is returned bare |
| `Parsing.PowTailParse` | parser.go:126-151 | `powExprTail` nests to the right and is absent when no `^` follows |
| `Parsing.PowTailParseLink` | parser.go:134-150 | the same, for a chain with at least one `^` |
| `Parsing.NegationParse` | parser.go:96-105 | a leading `-` makes a `-` node whose only child is the following atom |
| `Parsing.NegationLeavesPower` | parser.go:96-105 | after a negated atom a `^` is never read: the parse is the negation, and the `^` and all that follows are left |
| `Parsing.PowExprBeforePow` | parser.go:74-80 | a power-level operand followed by `^` is the whole parse |
| `Parsing.AtomParse` | parser.go:153-161 | `parenExpr` yields a literal's leaf, or the tree of a parenthesised expression, consuming the `)` |
| `Parsing.AtomTokensStart` | parser.go:96 | an atom never starts with `-` |
| `Parsing.GroupClosedByAnyToken` | parser.go:154-157 | after `(` and an expression, any token that cannot continue the expression is popped as the closing one, not only `)` |
| `Parsing.UnclosedGroupPanics` | parser.go:157 | a `(` whose expression runs to the end of the stream panics on the final `Pop` |
| `Parsing.ParseOfOperand` | parser.go:30-35 | a single operand that no operator follows is parsed as the whole expression |
| `Parsing.ReduceBinary` | ast.go:26-32 | an operator node keeps its label and reduces both children |
| `Parsing.ReduceWrap` | ast.go:22-23 | an empty node with only a left child reduces to the reduction of that child |
| `Printing.PrintLexes` | lexer.go:43-76 | lexing the printed form of an expression gives back exactly its tokens |
| `Printing.SumSpelling` | lexer.go:43-76 | the lexemes of an expression's tokens spell its printed form |
| `Printing.LexableAppend` | lexer.go:65-74 | two lexable token sequences stay lexable when joined, unless a number would meet a number |
| `Printing.SumLexable` | lexer.go:48-74 | an expression's tokens are all lexer-made, and no number is followed by a digit |
| `Evaluation.LiteralEval` | ast.go:97-99 | a number literal evaluates to the number it prints |
| `Evaluation.EvalSum` | ast.go:72-101 | the tree of an expression evaluates to the expression's value: left-to-right folds of `+ - * /`, `^` to the right, the same panic on a zero divisor |
| `Evaluation.EvalSumFold` | ast.go:74-83 | a `+`/`-` fold evaluates as the left fold of the values, and a panic in the tree so far is kept |
| `Evaluation.EvalTermFold` | ast.go:85-89 | a `*`/`/` fold evaluates as the left fold of the values, with division truncating and panicking on zero |
| `Evaluation.EvalFactor` | ast.go:77-92 | a power chain or a negation evaluates to its value |
| `Evaluation.EvalPowTail` | ast.go:91-92 | a `^` chain evaluates from the right |
| `Program.Eval` | main.go:12-41 | the package-level `Eval` agrees with the method `ASTNode.Eval` on every tree, panics included |
| `Program.EvalChild` | main.go:15 | the same for an optional child, where nil panics |
| `Program.Run` | main.go:55-56 | `Eval(Parse(Lex(expr)))` computed with the stream and the parser methods equals `Evaluate(expr)` |
| `Program.Evaluate` | main.go:55-56 | what `main` prints for its argument; stated by `Program.EvaluatePrinted`, `Program.EvaluateDigits`, `Program.NonNumericOperandIsZero` and the examples below |
| `Program.ParsedTreeHasNoEmptyLabels` | main.go:55 | for every input string, `Parse` of its tokens panics only where `expr` does, and the tree it returns is reduced and has no node with an empty label |
| `Program.EvaluatePrinted` | main.go:55-56 | every expression of the reference grammar, printed, evaluates to its value |
| `Program.EvaluateDigits` | main.go:55-56 | a non-empty digit string evaluates to its decimal value |
| `Program.NonNumericOperandIsZero` | main.go:37-39 | a lone operand that is not a number, such as a space followed by digits, evaluates to 0 instead of failing |
| `Program.SubtractionGroupsLeft` | parser.go:48-65 | `8-3-2` evaluates to 3 |
| `Program.PowerGroupsRight` | parser.go:126-151 | `2^3^2` evaluates to 512 |
| `Program.ProductBeforeSum` | parser.go:67-72 | `2+3*4` evaluates to 14 |
| `Program.ParenthesesGroup` | parser.go:153-157 | `(2+3)*4` evaluates to 20 |
| `Program.DivisionTruncates` | main.go:28-29 | `7/2` evaluates to 3 |
| `Program.NegativeDivisionTruncates` | main.go:28-29 | `-7/2` evaluates to -3, not the Euclidean -4 |
| `Program.DivisionByZeroPanics` | main.go:28-29 | `1/0` panics with integer divide by zero |
| `Program.NegationBeforePower` | parser.go:96-105 | `-2^2` evaluates to -2: the `^2` is left unread |
| `Program.EmptyInputPanics` | parser.go:96 | the empty input panics when `powExpr` peeks |
| `Program.UnclosedGroup` | parser.go:157 | `(2` panics when `parenExpr` pops the missing `)` |
| `Program.AnyTokenClosesGroup` | parser.go:157 | `(2]` evaluates to 2: the `]` is popped as the closing parenthesis |
| `Program.LeadingSpaceIsZero` | lexer.go:65-74 | spaces are not skipped: ` 7` is the single Number token ` 7`, and it evaluates to 0 |

## Left out

- `main` (main.go:43-63): flag parsing, the usage message, printing and `os.Exit` are process I/O. `Program.Run` models the computation it prints.
- `PrintDot` and `print` (ast.go:35-70): they write a Graphviz file and do not affect the result.
- Go's 64-bit `int`: integers are unbounded. Overflow of `+ - *`, the wrap of `MinInt64 / -1`, and `Atoi`'s clamping of out-of-range literals are not modelled.
- `GoArith.FloatPow`: models `int(math.Pow(float64(a), float64(b)))` with exact integer arithmetic. Rounding of operands and results beyond 2^53 and out-of-range conversions are not modelled. The one exception is `0^negative`, which gives the amd64 conversion of +Inf.
- Panics: only their kind is modelled (nil dereference, divide by zero, index out of range), not Go's message or stack trace.
- Trees are values. `Reduce` rewrites `n.Left`/`n.Right` in place, and the parser fills `parent` output parameters. Both are modelled as returning the new tree, since no node is shared. The token stream is the one mutable object, and it stays a class.
- `Lexer.ScanNumber`: the inner digit loop of `Lex` (lexer.go:66-72) is a separate method here, so that its loop carries its own invariant.
- `Syntax` covers the canonical printed form of expressions: literals without leading zeros, no spaces, and no negation followed by `^`. The parser is proved against it. Other inputs are covered by separate lemmas:
  - digit strings (`Program.EvaluateDigits`);
  - a lone operand that is not a number (`Program.NonNumericOperandIsZero`);
  - a negated atom followed by `^` (`Parsing.NegationLeavesPower`);
  - any token closing a group (`Parsing.GroupClosedByAnyToken`);
  - unclosed groups (`Parsing.UnclosedGroupPanics`).
  For arbitrary byte strings the general statements are the agreement of the methods with `Grammar` and the shape of the parsed tree (`Program.ParsedTreeHasNoEmptyLabels`).
