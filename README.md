# PredicateInlay in Dafny

PredicateInlay turns a boolean rule string such as `a or b and c` or
`(a or b xor orc -800) & d ^ e | func -0.15 0.17 'thing' and d` into an
expression tree. Its leaves are words with literal arguments, and its
inner nodes are the operators NOT, AND, XOR and OR. The tree's leaves are
bound to callbacks that a caller-supplied exchanger hands out for a name
and its arguments, and the tree is evaluated on demand. This project
models the whole pipeline of `src/PredicateInlay.cs` and proves its
properties:

- **Tokens** (`tokens.dfy`): the token kinds in declaration order (the
  order that breaks ties in the lexer), tokens, operators, and `GetOp`'s
  case-insensitive mapping from operator text to operator.
- **Matchers** (`matchers.dfy`): a matcher is any function that reports
  the leftmost match of a token kind in a text. `Standard` is a
  hand-written leftmost-match search for the six patterns of
  `RegexForTT`.
- **Lexer** (`lexer.dfy`): `Lex` specifies lexing round by round. The
  `Tokenize` method is the source's loop: it gathers every kind's match,
  tracks the closest start and selects the first result at that start.
  The method is proved equal to `Lex`, and `Lex` is proved to select the
  earliest match, with ties going to the kind declared first.
- **Exprs** (`exprs.dfy`): the nodes `Stub`, `Leaf` and `Oper`.
  - `Eval` is evaluation.
  - `Calls` is the trace of the callbacks an evaluation invokes, in order,
    with AND/OR short-circuiting.
  - `Bind` is `Populate`. It returns the rebound tree and whether the walk
    completed: an operator without a right operand throws in the source.
- **Parser** (`parser.dfy`): `MakeLeaf`, the folding passes (`FoldPass`,
  `Fold`) and the recursive-descent `Parse`. They are imperative methods
  with a shared cursor, each proved against a functional specification:
  `LeafAt`, `Pass`, `FoldAll` and `ParseAt`/`ScanFrom`.
- **Levels** (`levels.dfy`): what the scan of one level produces, item by
  item. A word gives its leaf, an operator its placeholder, and a nested
  group the tree of the group, after which the scan goes on past the
  group's cursor. The level ends at its first `)` outside every group. For
  levels without parentheses the items are also given position by position.
- **Folding** (`folding.dfy`): invariants of the fold.
  - Operands are moved into operators, never lost.
  - Each binary binding shrinks the branch list by 2, and each NOT by 1.
  - No unbound placeholder survives.
  - Dangling operators never give a tree that can be populated.
- **Precedence** (`precedence.dfy`): an independent reference definition
  of NOT > AND > XOR > OR precedence. Binary chains split at their first
  weakest operator, so equal operators nest to the right. The theorem
  `FoldIsPrecedence` proves that the four right-to-left passes build
  exactly that tree for every well-formed level.
- **Scenarios** (`scenarios.dfy`): the parses of the repository's test
  strings and other characteristic inputs, for arbitrary word names.
- **Inlay** (`inlay.dfy`): the classes `Tree` (root and `Populated` flag)
  and `PredicateInlay` (constructor, `Populate`, `Eval`). `Compile`
  describes what construction yields.

Callbacks are uninterpreted handles, and an environment `Env` says what each one
returns. The exchanger is a function parameter returning an optional
handle. Exceptions of the source are `Result` errors: `ParseError`, and
`InlayError` for construction.

Where the code differs from what its comments and design suggest, the
model follows the code:

- When no pattern matches the rest of the text, lexing stops silently,
  and the tokens so far are the result.
- A literal that follows no word is ignored.
- `Populate` visits a left operand (when present) before the right
  operand.
- A dangling operator fails in one of two ways. A binary operator at the
  edge that no earlier pass absorbed fails as `MissingOperand` (the
  source's index out of range). A trailing binary operator absorbed by an
  earlier pass, as in `a and or`, makes construction fail at `Populate`.
- A `)` at the top level ends the parse silently.
- A binary operator whose right operand would be a literal has no operand:
  the literal follows no word and is dropped. So the third string of
  tests/Program.cs, which ends in `and 'thing')`, fails at construction.
  The source throws `ArgumentOutOfRangeException` at its line 170, and the
  model gives `MissingOperand` (`Scenarios.DanglingOperatorFails`).

## Model

| member | source | states |
|---|---|---|
| Tokens.Rank | src/PredicateInlay.cs:383-392 | each token kind has a unique position in declaration order |
| Tokens.OpOfText | src/PredicateInlay.cs:431-438 | an accepted text's lower-case form is one of the operator's spellings; an unknown text yields UnknownOperator and matches no operator's spellings |
| Tokens.GetOp | src/PredicateInlay.cs:428-439 | a non-operator token gives null; an operator token succeeds exactly when its lower-cased text is some operator's spelling, and then gives that operator |
| Tokens.GetOpRoundTrip | src/PredicateInlay.cs:433-436 | every spelling of an operator maps back to that operator |
| Tokens.GetOpIgnoresCase | src/PredicateInlay.cs:431 | two texts equal up to case give the same result |
| Tokens.GetOpUpperCaseExample | src/PredicateInlay.cs:431 | "AND" is AND, "Xor" is XOR, and "nand" is rejected |
| Matchers.OperatorAt | src/PredicateInlay.cs:458 | an operator match is non-empty, fits the text, and is one of the nine operator spellings (`!=`, `&`, the bar, `^`, `!`, `and`, `or`, `xor`, `not`) |
| Matchers.NumberAt | src/PredicateInlay.cs:459 | a number matches exactly when a digit follows the optional minus sign; the match fits the text, holds only digits and dots after its first character, and ends in a digit |
| Matchers.QuotedAt | src/PredicateInlay.cs:459 | a quoted-literal match is preceded by a quote and followed by one |
| Matchers.MatchAt | src/PredicateInlay.cs:455-460 | a match anchored at p fits the text and ends at offset 1 or later |
| Matchers.FindFrom | src/PredicateInlay.cs:81 | the result is the leftmost position with an anchored match, and none exists when nothing is found |
| Matchers.Standard | src/PredicateInlay.cs:452-462 | each kind's pattern search (Regex.Match) gives its leftmost anchored match, and none exactly when the pattern matches nowhere |
| Matchers.StandardWellFormed | src/PredicateInlay.cs:455-460 | every match of the standard patterns fits the text |
| Matchers.StandardOperatorsKnown | src/PredicateInlay.cs:458 | every operator text the lexer can produce is accepted by GetOp |
| Lexer.Best | src/PredicateInlay.cs:78-94 | among the kinds from i on: none when no kind matches, otherwise a matching kind that beats every other match |
| Lexer.Select | src/PredicateInlay.cs:89-97 | a selected kind's match is that kind's own match in the text |
| Lexer.Round | src/PredicateInlay.cs:95-105 | a round that emits something leaves a strictly shorter rest, so lexing terminates |
| Lexer.Lex | src/PredicateInlay.cs:74-105 | lexing round by round until nothing matches; its properties are LexRound, LexStopsWhenNothingMatches, LexHasNoSeparators and LexEmbedded |
| Lexer.SelectIsEarliest | src/PredicateInlay.cs:76-94 | a round selects nothing exactly when no kind matches, otherwise the match with the smallest start, of the earliest-declared kind among those at that start |
| Lexer.EarliestUnique | src/PredicateInlay.cs:91-93 | the earliest match is unique |
| Lexer.LexRound | src/PredicateInlay.cs:99-105 | after the earliest match, lexing continues on the suffix after it, emitting the match's exact text unless it is a separator |
| Lexer.LexStopsWhenNothingMatches | src/PredicateInlay.cs:95-97 | when no kind matches, lexing stops with no further tokens |
| Lexer.LexHasNoSeparators | src/PredicateInlay.cs:102-105 | no separator token is ever emitted |
| Lexer.LexEmbedded | src/PredicateInlay.cs:100-104 | the emitted tokens' texts occur in the input in order, without overlap |
| Lexer.GatherIsGathered | src/PredicateInlay.cs:74-88 | the gathered results are exactly the kinds that match, in declaration order, and closest is the least start among them |
| Lexer.FirstClosestIsSelect | src/PredicateInlay.cs:89-97 | the first gathered result at the closest start is the selected match, and there is none exactly when nothing is selected |
| Lexer.SelectRound | src/PredicateInlay.cs:74-97 | the gather loop and the selection loop compute the round's selected match |
| Lexer.Tokenize | src/PredicateInlay.cs:67-108 | the loop returns exactly the round-by-round lexing of the expression |
| Lexer.XorLexesAsOperator | src/PredicateInlay.cs:78-93 | "xor " lexes as one Operator token, not a Word: both match at 0, and Operator is declared first |
| Exprs.Eval | src/PredicateInlay.cs:265-343 | Stub and a leaf without callback are true, a bound leaf is its callback's value, an absent operand reads as true; its properties are EvalDependsOnCalls and UnboundTreeIsConstant |
| Exprs.Calls | src/PredicateInlay.cs:335-343 | evaluation invokes only callbacks stored in the tree |
| Exprs.EvalDependsOnCalls | src/PredicateInlay.cs:335-343 | environments that agree on the invoked callbacks give the same value and the same trace: short-circuited operands are never looked at |
| Exprs.UnboundTreeIsConstant | src/PredicateInlay.cs:284 | a tree with no callbacks (every leaf true) has the same value in every environment |
| Exprs.Erase | src/PredicateInlay.cs:275-277 | the shape, names and arguments of a tree, with no callback left |
| Exprs.Bind | src/PredicateInlay.cs:344-348 | Populate keeps shape, names and arguments; it completes exactly when every operator has its right operand, and then every leaf holds the exchanger's callback |
| Exprs.BindableErase | src/PredicateInlay.cs:347 | whether Populate completes depends only on the shape |
| Exprs.BindUnique | src/PredicateInlay.cs:285 | a complete binding is the only tree of that shape whose leaves hold the exchanger's callbacks |
| Exprs.Rebind | src/PredicateInlay.cs:285 | re-populating fully overwrites the earlier binding |
| Parser.LiteralRunIsMaximal | src/PredicateInlay.cs:414-419 | the arguments are the texts of the literals right after the word, in order, and the run is maximal |
| Parser.MakeLeaf | src/PredicateInlay.cs:407-421 | the leaf is named by the word and carries the literal run; null exactly for an out-of-range index or a non-word token |
| Parser.ParseAt | src/PredicateInlay.cs:116-205 | a parse never moves the cursor back |
| Parser.ScanFrom | src/PredicateInlay.cs:123-154 | scanning never moves the cursor back |
| Parser.LeafAt | src/PredicateInlay.cs:407-421 | null exactly for an index outside the array or a token that is not a word; otherwise a leaf with no callback, named by the word, whose arguments are the texts of the maximal run of literals right after it |
| Parser.Pass | src/PredicateInlay.cs:161-185 | a pass fails only with a missing operand (the source's index out of range) |
| Parser.PassNoLonger | src/PredicateInlay.cs:167-183 | a pass never lengthens the branch list |
| Parser.FoldAll | src/PredicateInlay.cs:158-186 | the four passes never lengthen the branch list, and the fold fails only with a missing operand |
| Parser.Close | src/PredicateInlay.cs:193-198 | no branch closes to the Stub and one branch to itself; more than one fails as unreduced, with their count |
| Parser.FoldPass | src/PredicateInlay.cs:161-185 | the right-to-left loop over the mutable branch list computes one pass |
| Parser.Fold | src/PredicateInlay.cs:158-186 | the passes NOT, AND, XOR, OR in turn |
| Parser.Parse | src/PredicateInlay.cs:116-205 | the method with the shared cursor returns the tree and final cursor of the recursive-descent specification, or its error |
| Parser.CloseLevel | src/PredicateInlay.cs:155-198 | closing a level: close the pending word, fold, then Stub, the one branch, or an error |
| Levels.ScanLevel | src/PredicateInlay.cs:123-154 | scanning from any position gives, after the earlier branches and the pending word's leaf, the items of the level from there, reduced, with the cursor where the level ends; a nested group is one item and the scan resumes past its cursor |
| Levels.LevelItems | src/PredicateInlay.cs:126-152 | every branch of a level comes from one token of it, in token order: a word gives its leaf, an operator its placeholder, an opening delimiter its group's tree; every other position is a literal, a separator or inside one of the level's groups; the level ends on a ")" or past the end of the array |
| Levels.LevelLeaves | src/PredicateInlay.cs:127-150 | every word of a level outside its groups gives exactly one branch, its leaf, named by the word and carrying the literals after it |
| Levels.TopLevelCloseEndsParse | src/PredicateInlay.cs:116-154 | the parse of a whole array is its top level, reduced; it stops on the first ")" outside every group, or past the end of the array |
| Levels.AfterTopLevelCloseIgnored | src/PredicateInlay.cs:139-141 | when a parse stops on a top-level ")", that token is a ")" and any array that agrees up to it parses the same |
| Levels.FlatLevel | src/PredicateInlay.cs:126-150 | without delimiters, the level's items are read position by position and the level ends where the delimiter-free stretch does |
| Levels.LevelFailsOnUnknownOperator | src/PredicateInlay.cs:143-145 | a level without delimiters fails exactly when one of its operators is unknown |
| Levels.ScanFlat | src/PredicateInlay.cs:123-154 | scanning a level without delimiters gives its position-by-position branches, reduced, with the cursor on the level's end |
| Levels.ParseFlat | src/PredicateInlay.cs:116-198 | a token array without parentheses parses to its level reduced, with the cursor at the end |
| Levels.FlatCloseIgnored | src/PredicateInlay.cs:139-141 | before a top-level ")" with no delimiter in front of it, the text after it never changes the result, whether the parse succeeds or fails |
| Folding.PassKeepsOperands | src/PredicateInlay.cs:167-183 | a pass moves operands into operators and never discards any: the flattened branches are unchanged |
| Folding.FoldKeepsOperands | src/PredicateInlay.cs:158-186 | so do the four passes together |
| Folding.PassLeavesNoPlaceholder | src/PredicateInlay.cs:161-185 | after the pass for an operator, no unbound placeholder of it remains, and none of another kind appears |
| Folding.FoldAllLeavesNoPlaceholder | src/PredicateInlay.cs:158-186 | after a successful fold no unbound placeholder of any kind remains |
| Folding.PassShrinks | src/PredicateInlay.cs:167-183 | each binding shrinks the branch list by the operator's arity: 2 for a binary operator, 1 for NOT |
| Folding.PassWithoutPlaceholders | src/PredicateInlay.cs:164 | a pass with nothing to bind changes nothing |
| Folding.AdjacentOperandsUnreduced | src/PredicateInlay.cs:193-198 | two or more operands with no operator between them fail: more than one branch survives |
| Folding.RightOpenNotBindable | src/PredicateInlay.cs:347 | an operator without right operand cannot be populated |
| Folding.FoldKeepsEdgeOpen | src/PredicateInlay.cs:158-186 | an operator missing its operand at an edge stays at that edge through every pass |
| Folding.EdgeOperatorNeverBindable | src/PredicateInlay.cs:170-180 | a level starting with a binary operator or ending with any operator never gives a tree that can be populated: the fold fails or the result has no right operand somewhere |
| Precedence.PassGroup | src/PredicateInlay.cs:161-176 | a binary pass right to left groups every maximal run of its operator into a right-nested chain |
| Precedence.BuildGroup | src/PredicateInlay.cs:158-186 | grouping the strongest remaining operator does not change the precedence tree |
| Precedence.GroupFromBuilds | src/PredicateInlay.cs:158-186 | grouping AND, then XOR, then OR leaves exactly the precedence tree |
| Precedence.PassNegates | src/PredicateInlay.cs:177-183 | the NOT pass binds each run of NOTs to the operand on its right, innermost first |
| Precedence.NegateIsWellFormed | src/PredicateInlay.cs:177-183 | after the NOT pass only operands and binary placeholders alternate |
| Precedence.BinaryFold | src/PredicateInlay.cs:167-176 | the three binary passes reduce a well-formed chain to its precedence tree |
| Precedence.FoldIsPrecedence | src/PredicateInlay.cs:158-198 | for every well-formed level, the fold gives exactly the NOT > AND > XOR > OR precedence tree, with equal operators nested to the right |
| Scenarios.ParseThree | src/PredicateInlay.cs:116-198 | `a o1 b o2 c` parses to the precedence tree of the three words |
| Scenarios.AndBindsTighterThanOr | tests/Program.cs:10 | "a or b and c" is OR(a, AND(b, c)) |
| Scenarios.AndBindsFirstOnTheLeft | src/PredicateInlay.cs:167-176 | "a & b" followed by the bar operator and c is OR(AND(a, b), c) |
| Scenarios.ChainNestsRight | src/PredicateInlay.cs:161-176 | "a or b or c" is OR(a, OR(b, c)) |
| Scenarios.GroupIsOneOperand | tests/Program.cs:11 | "(a or b) and c" is AND(OR(a, b), c) |
| Scenarios.NotBindsToItsRight | src/PredicateInlay.cs:177-183 | "not a and b" is AND(NOT a, b) |
| Scenarios.LiteralsAreArguments | src/PredicateInlay.cs:413-420 | a word followed by three literals is one leaf with those arguments |
| Scenarios.DanglingOperatorFails | src/PredicateInlay.cs:167-170 | a word, two literals, `and` and a quoted literal fail with a missing operand: the last literal follows no word and is dropped |
| Scenarios.EmptyGroupIsStub | src/PredicateInlay.cs:195 | "()" is the Stub |
| Inlay.Compile | src/PredicateInlay.cs:23-34 | construction succeeds exactly when the expression parses and its tree can be populated; the result is the parsed tree bound to the exchanger |
| Inlay.CompileShape | src/PredicateInlay.cs:23-34 | whether construction succeeds, and the tree's shape, do not depend on the exchanger |
| Inlay.BoundCallbacksFromExchanger | src/PredicateInlay.cs:285 | every callback in a populated tree was handed out by its exchanger |
| Inlay.CompiledCallsFromExchanger | src/PredicateInlay.cs:23-34 | evaluating a constructed inlay invokes only callbacks its exchanger handed out |
| Inlay.RepopulateIsRecompile | src/PredicateInlay.cs:36-40 | re-populating gives the tree that constructing with the new exchanger gives |
| Inlay.EmptyExpressionIsTrue | src/PredicateInlay.cs:118 | the empty expression is the Stub, which is true |
| Inlay.Tree.constructor | src/PredicateInlay.cs:224-227 | a new tree holds its root and is not yet populated |
| Inlay.Tree.Eval | src/PredicateInlay.cs:241 | a tree's value is its root node's value |
| Inlay.Tree.Populate | src/PredicateInlay.cs:232-236 | the flag is set, the root is rebound, it returns normally exactly when the tree can be populated, and every leaf then holds the exchanger's callback |
| Inlay.PredicateInlay.Create | src/PredicateInlay.cs:23-34 | the constructor succeeds exactly when Compile does, holding Compile's tree, populated |
| Inlay.PredicateInlay.Eval | src/PredicateInlay.cs:54 | the inlay's value is the tree's evaluation, since no compiled delegate is ever set |
| Inlay.PredicateInlay.Populate | src/PredicateInlay.cs:36-40 | every leaf is rebound to the new exchanger, the shape is kept, and the inlay stays valid |

## Left out

- `Compile`, `EmitToDyn`, `DynamicMethod`, `compiledEvalDynM`, `compiledEval` and `myID` are not modelled. They are an unfinished code-generation path that throws and depends on runtime code emission. Since `compiledEval` is never assigned, `PredicateInlay.Eval` is the tree's evaluation, and `Populate`'s clearing of those fields has no effect.
- The .NET regex engine is not modelled. The six patterns are hand-written leftmost-match searches. The quoted-literal pattern `(?<=').*(?=')` is modelled as the longest stretch on one line that a quote precedes and a quote follows. `RegexOptions.Compiled` has no observable effect.
- The `Group` struct is never constructed, and both its methods throw. The `ToString` and `DebuggerDisplay` members are for display only.
- Callbacks are foreign code. Their side effects and exceptions are out of the model: an environment says what each callback returns.
- A null exchanger, as passed by tests/Program.cs, is not modelled. Populating with it throws on the first leaf.
- `Leaf` and `Oper` are structs boxed behind `IExpr`, and Populate mutates them in place. The model replaces the tree's root with the rebound tree instead, so aliasing of boxed nodes is not modelled.
- tests/Program.cs is a console program with no logic of its own. Its first two strings are stated as one-lemma scenarios over tokens, not over raw text. Its third string fails at construction (`ArgumentOutOfRangeException` in the source, `MissingOperand` in the model): `DanglingOperatorFails` states this for the failing tail of its top level, over tokens.
- Exprs.Eval has no contract of its own: it is the source's evaluation, node by node. What is proved about it is in `EvalDependsOnCalls` (the trace is exact, so short-circuited operands are never looked at) and `UnboundTreeIsConstant`.
- Matchers.NumberAt: `\d` is modelled as the ASCII digits. .NET's `\d` also matches every other Unicode decimal digit (for instance U+0663), so a number written in other scripts is not a literal here.
- Matchers.MatchAt: for the Literal kind it inherits NumberAt's ASCII digits. `\s` (in the Separator and Operator patterns) is .NET's full white-space class.
- Levels.LevelFailsOnUnknownOperator: stated for levels without delimiters only. With groups, a level also fails when one of its groups fails.
- Levels.AfterTopLevelCloseIgnored: stated for parses that succeed. For a failing parse, the statement is `FlatCloseIgnored`, for a top level without delimiters before the `)`.
- Inlay.PredicateInlay.Create: requires the expression to be shorter than `int.MaxValue` (the initial value of `closest`). That bound cannot be exceeded by a .NET string.
- Exceptions (`ArgumentException` from GetOp, `ArgumentOutOfRangeException` from the fold, `InvalidOperationException` for unreduced branches, `NullReferenceException` from Populate) are error values. The model does not distinguish what the source's catch handlers could observe, and there are no handlers.
