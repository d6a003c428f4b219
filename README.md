# PreDi predicate comparison, modelled in Dafny

PreDi compares two Solidity-style predicates, such as `msg.sender == msg.origin && a >= b`.
It answers with one of four fixed sentences:

- the predicates are equivalent;
- the first predicate is stronger;
- the second predicate is stronger;
- neither is stronger.

The repository holds two pipelines, and this project models the core of both.

- **The current pipeline** (`src/predi/`):
  - The tokenizer runs first, then the parser (`src/predi/parser.py`).
  - The comparator lowers the AST to a sympy expression (`_to_sympy_expr`) and simplifies it.
  - `_implies` then decides implication in each direction with an ordered list of rewrite rules:
    - identity;
    - a zero difference;
    - the negation/truth idioms;
    - the `!`-against-`||` idioms;
    - the pairwise, one-sided `And`/`Or` rules;
    - function applications;
    - symbols;
    - a relational base case, decided by sympy's LRA satisfiability or by z3.
- **The legacy pipeline** (`src/tokenizer.py`, `src/parser.py`, `src/comparator.py`):
  - The same tokenizer feeds an older parser.
  - The trees are simplified as trees and compared by structural equality (`_ast_equal`).
  - Failing that, sympy is asked whether `Implies(a, b)` simplifies to true, first forwards and then backwards.
- **The diversifier** (`src/predi/diversify_predicates.py`) produces a variant of a predicate string, for differential testing. It applies one of five string rewrites.

| file | module | models |
|---|---|---|
| `wrappers.dfy` | `Wrappers` | `Option` and `Result` |
| `strings.dfy` | `Strings` | character classes, `in`, `str.replace`, `split(sep)[0]`, `strip()`, `int()`/`str()` on naturals |
| `syntax.dfy` | `Syntax` | the token tags, tokens, the AST node `ASTNode(value, children)`, the precedence ladder both parsers share |
| `tokenizer.dfy`, `tokenizer_properties.dfy`, `tokenizer_examples.dfy` | `Tokenizer`, … | `Tokenizer.tokenize`: a specification function `Lex` and the imperative scan `Tokenize` proved equal to it |
| `binary64.dfy` | `Binary64` | IEEE 754 binary64 rounding of a natural number, as `float()` of an integer-valued decimal literal performs it: round to nearest, ties to even, infinite from the midpoint above the largest double |
| `normalize.dfy`, `normalize_examples.dfy` | `Normalization`, … | `Tokenizer.normalize` |
| `predi_parser.dfy`, `predi_parser_properties.dfy` | `PrediParser`, … | the recursive-descent `Parser` of the current pipeline: specification functions plus a class with a `position` cursor |
| `legacy_parser.dfy` | `LegacyParser` | the older parser, in the same two forms |
| `symbolic.dfy` | `Symbolic` | the sympy expression trees, plus a truth and an integer meaning for them |
| `verdicts.dfy` | `Verdicts` | the four verdicts and their sentences |
| `predi_comparator.dfy`, `predi_comparator_properties.dfy` | `PrediComparator`, … | lowering, `sympy_to_z3`, `_implies`, `compare` of the current pipeline |
| `legacy_comparator.dfy`, `legacy_comparator_properties.dfy` | `LegacyComparator`, … | `_ast_equal`, `_contains`, `_to_sympy_expr`, `_is_stronger`, `compare` of the legacy pipeline |
| `diversify.dfy`, `diversify_properties.dfy` | `Diversify`, … | the five strategies and `advanced_diversify_predicate` |

**Oracles.** sympy's simplifier, its satisfiability check, z3's solver and the legacy tree simplifier are not part of this model. Each enters as a function-valued field of an oracle record: `PrediComparator.Oracles` and `LegacyComparator.LegacyOracles`. An oracle that raises answers `None`. The properties proved about `_implies` therefore hold whatever those libraries answer. The random choices of the diversifier are parameters in the same way: the strategy index, and the index of the template chosen.

**Where the code and the intended design differ, the model follows the code.** For the three branches listed under Findings it also carries the corrected version beside it.

- The z3 translation (`sympy_to_z3`) has no case for numbers or `!=`. The `ValueError` it raises is not caught anywhere in `_implies`, so it ends `compare`. A failure in that back end is not treated as "rule inapplicable". See `PrediComparatorProperties.TranslationErrorEscapes` and `EqualityAgainstBoundRaises`.
- `x == 1` against `x > 0` therefore raises rather than answering.
- Both parsers build left-nested binary nodes for `&&`/`||` chains, not N-ary nodes. Any flattening comes from sympy's construction, which is part of the simplification oracle here.
- Leaves are not mapped to well-known symbols. Every leaf that is not a number becomes a symbol named by its text, with `.` replaced by `_`.
- The left-`And` rule computes `_implies` for every operand before `any` looks at the results. An error in any operand therefore escapes, even when an earlier operand already implies the right side (`LeftAnd`).
- The negation/truth idiom rules at `src/predi/comparator.py:154-164` and `185-189` recurse on the implication in the wrong direction. The `-` branch at `src/predi/comparator.py:90-91` always reads two operands, so a unary minus raises `IndexError`. See Findings for both.
- A `PrediComparator.Rules` value selects which engine runs. `AsWritten` is what the program does, and `Corrected` fixes those three branches and nothing else. `Lower`, `Implies` and `Compare` take it, so every property of the engine is proved for both.
  - `UnaryMinusCompared`, `NotAgainstFalseCompared` and `TrueAgainstSymbolCompared` put the two engines side by side on whole predicates.
  - `CorrectedAgrees` shows that the corrected lowering differs from the program's only where the program raises.
- In the legacy comparator, two different trees that imply each other are reported as "first stronger", in either order (`MutualImplicationFirstWins`). That comparator never reports mutual implication as equivalence.
- The current comparator imports its tokenizer from `src/predi/tokenizer.py`. That file is not part of this model. Both pipelines are modelled with the tokenizer of `src/tokenizer.py`.

## Model

| member | source | states |
|---|---|---|
| Strings.ReplaceAllAbsent | src/predi/diversify_predicates.py:19-24 | `str.replace` of a pattern that does not occur returns the string unchanged |
| Strings.ReplaceAllLength | src/predi/diversify_predicates.py:19-22 | replacing a pattern by a text of equal length keeps the length of the string |
| Strings.ReplaceAllRemoves | src/predi/diversify_predicates.py:19-22 | when the replacement shares no character with the pattern, no occurrence of the pattern is left |
| Strings.ReplaceAllLeavesReplacement | src/predi/diversify_predicates.py:19-22 | replacing a pattern that occurs leaves an occurrence of the replacement |
| Strings.ReplaceAllRoundTrip | src/predi/diversify_predicates.py:19-22 | swapping a pattern for an equal-length text and back is the identity, on inputs free of the replacement's first character |
| Strings.SplitFirst | src/predi/diversify_predicates.py:53 | `split(sep)[0]` is a prefix of the input holding no `sep`, and is the whole input when `sep` is absent |
| Strings.Strip | src/predi/diversify_predicates.py:53 | the result of `strip()` is empty or starts and ends with a non-whitespace character |
| Strings.StripDropsWhitespace | src/tokenizer.py:62 | `strip()` removes exactly the leading and the trailing whitespace run |
| Strings.NatToString | src/tokenizer.py:79 | `str(n)` is a non-empty run of digits with no leading zero, whose decimal value is `n` |
| Tokenizer.UnitAt | src/tokenizer.py:42 | the unit alternative found is the first one, in the order listed, that occurs at the position |
| Tokenizer.TimeUnitParts | src/tokenizer.py:42 | a time-unit match is a non-empty digit run, then optional whitespace, then one of the five units |
| Tokenizer.ScientificParts | src/tokenizer.py:44 | a scientific match is digits, `e`, and digits, with both runs non-empty |
| Tokenizer.MatchKeyword | src/tokenizer.py:8-10 | a keyword row matches only its whole word, ending right after it |
| Tokenizer.MatchLiteral | src/tokenizer.py:11-34 | an operator row matches only its own text, ending right after it |
| Tokenizer.MatchString | src/tokenizer.py:35 | a string literal starts with `"` and ends within the input |
| Tokenizer.MatchFloat | src/tokenizer.py:36 | a float match starts with a digit and is non-empty |
| Tokenizer.MatchInteger | src/tokenizer.py:37 | an integer match is exactly the maximal digit run at the position |
| Tokenizer.MatchAddress | src/tokenizer.py:40 | an address literal is `0x` and exactly 40 hex digits |
| Tokenizer.MatchBytes | src/tokenizer.py:41 | a bytes literal is `0x` and at least one hex digit |
| Tokenizer.MatchTimeUnit | src/tokenizer.py:42 | a time-unit match starts with a digit and ends after its unit |
| Tokenizer.MatchIdentifier | src/tokenizer.py:43 | an identifier is a letter or `_` and then the maximal run of word characters |
| Tokenizer.MatchScientific | src/tokenizer.py:44 | a scientific match starts with a digit and ends after its exponent digits |
| Tokenizer.MatchWhitespace | src/tokenizer.py:45 | a whitespace match is the maximal whitespace run at the position |
| Tokenizer.MatchPattern | src/tokenizer.py:71-73 | any match is non-empty, and starts with a character its row can start with |
| Tokenizer.FirstMatch | src/tokenizer.py:71-74 | the row chosen is one whose pattern matches at the position, with that match's end |
| Tokenizer.Emit | src/tokenizer.py:75-84 | whitespace emits nothing; any other row emits one non-empty token, with TIME_UNIT and SCIENTIFIC re-tagged INTEGER |
| Tokenizer.Lex | src/tokenizer.py:64-100 | on success no token is TIME_UNIT or SCIENTIFIC and none is empty; an error is either a position where no row matches, with the character there, or a scientific literal at the position whose value rounds to an infinite double, with its text |
| Tokenizer.LexAtEnd | src/tokenizer.py:69 | at the end of the input the scan yields no tokens |
| Tokenizer.LexStep | src/tokenizer.py:71-86 | one scan step emits the first matching row's token and resumes after the match, unless that row is a scientific literal too large for a double, which stops the scan |
| Tokenizer.Tokenize | src/tokenizer.py:64-100 | the imperative scan returns exactly what `Lex` specifies, tokens or error |
| TokenizerProperties.FirstMatchSkip | src/tokenizer.py:71-74 | rows that do not match are passed over |
| TokenizerProperties.RowMatchesFirst | src/tokenizer.py:71-74 | once row `k` is reached, a match of its pattern is the match taken |
| TokenizerProperties.UnmatchedCharacterRaises | src/tokenizer.py:97-98 | a character that no row can start with makes the whole scan fail, at its position |
| TokenizerProperties.WhitespaceEmitsNothing | src/tokenizer.py:45 | a whitespace run yields no token, and the scan resumes after it |
| TokenizerProperties.DelimitersAlwaysMatch | src/tokenizer.py:87-96 | the fallback for a lone `(`, `)` or `,` is unreachable: the table rows for them always match |
| TokenizerProperties.KeywordRowMatches | src/tokenizer.py:8-10 | a keyword row matches its word between two word boundaries and emits it with its tag |
| TokenizerProperties.MsgSenderIsOneToken | src/tokenizer.py:8 | `msg.sender` is one MSG_SENDER token, not an identifier, a dot and an identifier |
| TokenizerProperties.MsgOriginIsOneToken | src/tokenizer.py:9 | `msg.origin` is one MSG_ORIGIN token |
| TokenizerProperties.BooleanLiteralWins | src/tokenizer.py:38-39 | `true` and `false` as whole words are TRUE/FALSE tokens, not identifiers |
| TokenizerProperties.TwoCharOperatorWins | src/tokenizer.py:11-18 | `==`, `!=`, `>=`, `<=`, `&&`, `\|\|` are single tokens, never split into one-character operators |
| TokenizerProperties.SingleCharOperator | src/tokenizer.py:21-34 | `?`, `:`, parentheses, the arithmetic operators, `.`, `,` and brackets are one token each, with their tags |
| TokenizerProperties.IdentifierToken | src/tokenizer.py:43 | a word starting with a letter or `_` at which none of the keyword rows (`msg.sender`, `msg.origin`, `require`, `true`, `false`) matches is one IDENTIFIER spanning the longest run of word characters, whatever its first letter |
| TokenizerExamples.TrueValueIsIdentifier | src/tokenizer.py:38-43 | `trueValue` is one IDENTIFIER: `true` followed by a word character is not the boolean keyword |
| Binary64.NearestDouble | src/tokenizer.py:82 | `float()` of an integer: the result, when finite, is below 2^1024 and within half a unit in the last place of the value |
| Binary64.ExactBelowPrecision | src/tokenizer.py:82 | an integer below 2^53 is a double, so `int(float(n))` gives `n` back |
| Binary64.SignificandFits | src/tokenizer.py:82 | a finite result is a multiple of the value's unit in the last place, with a significand of at most 2^53 |
| Binary64.RoundIsNearest | src/tokenizer.py:82 | no multiple of the unit is nearer to the value than the rounded one |
| Binary64.RoundTiesToEven | src/tokenizer.py:82 | a value halfway between two multiples goes to the even one |
| Binary64.InfiniteIff | src/tokenizer.py:82 | `float()` overflows exactly when the value is at least 2^1024 minus 2^970, the midpoint between the largest double and 2^1024 |
| TokenizerProperties.ScientificRowWins | src/tokenizer.py:36-44 | at `digits e digits`, the first row to match is SCIENTIFIC, spanning the whole literal |
| TokenizerProperties.ScientificStep | src/tokenizer.py:81-83 | a scientific literal emits one INTEGER holding the digits of the double nearest to its value, or stops the scan when that double is infinite |
| TokenizerProperties.ScientificExact | src/tokenizer.py:81-83 | a scientific literal below 2^53 emits its exact value |
| TokenizerProperties.ScientificInfinite | src/tokenizer.py:81-83 | a scientific literal stops the scan exactly when its value is at least 2^1024 minus 2^970 |
| TokenizerExamples.TenToTheTwentyThree | src/tokenizer.py:81-83 | `1e23` tokenizes to the INTEGER `99999999999999991611392`, the double nearest to ten to the 23 |
| TokenizerExamples.FourHundredOverflows | src/tokenizer.py:81-83 | `1e400` stops the scan at position 0 on its own text |
| TokenizerProperties.UnitsAreWords | src/tokenizer.py:42 | the five units are lower-case words with pairwise different first letters |
| TokenizerProperties.TimeUnitRowWins | src/tokenizer.py:36-42 | at digits written against a unit (`7days`), the first row to match is TIME_UNIT, spanning digits and unit |
| TokenizerProperties.TimeUnitEmitsSeconds | src/tokenizer.py:47-53 | any TIME_UNIT match emits one INTEGER holding its number times the unit's seconds: 1, 60, 3600, 86400 or 604800 |
| TokenizerProperties.SpacedNumberNotFolded | src/tokenizer.py:37 | digits separated from the unit by whitespace (`7 days`) match INTEGER first and are not folded |
| TokenizerExamples.SevenDaysFolds | src/tokenizer.py:77-80 | `7days` tokenizes to the single INTEGER `604800` |
| TokenizerExamples.SpacedUnitNotFolded | src/tokenizer.py:37 | `7 days` tokenizes to INTEGER `7` then IDENTIFIER `days` |
| TokenizerExamples.DivisionThenEquality | tests/test_tokenizer.py:39-48 | `c/a==b` tokenizes to IDENTIFIER, DIVIDE, IDENTIFIER, EQUAL, IDENTIFIER |
| TokenizerExamples.SenderEqualsOrigin | tests/test_tokenizer.py:14-21 | `msg.sender == msg.origin` tokenizes to MSG_SENDER, EQUAL, MSG_ORIGIN |
| TokenizerExamples.HashRaises | src/tokenizer.py:97-98 | `x # y` fails at position 2 on `#` |
| TokenizerExamples.MinusSign | src/tokenizer.py:26 | a leading `-` is one MINUS token, and the scan goes on after it |
| TokenizerExamples.MinusOne | src/tokenizer.py:26-37 | `-1 ` tokenizes to MINUS then the INTEGER `1` |
| Normalization.RemoveWhitespace | src/tokenizer.py:56 | the result has no whitespace and is no longer than the input |
| Normalization.PadComparisons | src/tokenizer.py:57 | padding the comparison operators never shortens the string |
| Normalization.PadConnectives | src/tokenizer.py:58 | padding `&&` and `\|\|` never shortens the string |
| Normalization.CollapseWhitespace | src/tokenizer.py:61 | the result never has two whitespace characters in a row, and starts with a space exactly where the input started with whitespace |
| Normalization.RemoveWhitespaceIdempotent | src/tokenizer.py:56 | removing whitespace twice is removing it once |
| Normalization.PadComparisonsKeepsText | src/tokenizer.py:57 | padding comparisons changes only whitespace |
| Normalization.PadConnectivesKeepsText | src/tokenizer.py:58 | padding connectives changes only whitespace |
| Normalization.PadParenthesesKeepsText | src/tokenizer.py:59-60 | padding parentheses changes only whitespace |
| Normalization.CollapseKeepsText | src/tokenizer.py:61 | collapsing whitespace changes only whitespace |
| Normalization.StripKeepsText | src/tokenizer.py:62 | stripping changes only whitespace |
| Normalization.NormalizeKeepsText | src/tokenizer.py:55-62 | `normalize` keeps every non-whitespace character, in order |
| Normalization.NormalizeCanonical | src/tokenizer.py:55-62 | the output of `normalize` has single spaces only, and none at either end |
| Normalization.NormalizeSpacesParentheses | src/tokenizer.py:59-62 | in the output of `normalize`, every parenthesis not at an end has a space on each side |
| Normalization.PadComparisonsSpaced | src/tokenizer.py:57 | after the comparison padding, every run of `!`, `=`, `<`, `>` has whitespace on each side, or is at an end |
| Normalization.PadConnectivesSpaced | src/tokenizer.py:58 | after the connective padding, every `&&` and `\|\|` has whitespace on each side, or is at an end |
| Normalization.PadConnectivesKeepsComparisons | src/tokenizer.py:58 | the connective padding keeps comparison operators spaced |
| Normalization.PadParenthesesKeepsOperators | src/tokenizer.py:59-60 | the parenthesis padding keeps comparison operators, `&&` and `\|\|` spaced |
| Normalization.CollapseKeepsOperators | src/tokenizer.py:61 | collapsing whitespace keeps comparison operators, `&&` and `\|\|` spaced |
| Normalization.StripKeepsOperators | src/tokenizer.py:62 | stripping keeps comparison operators, `&&` and `\|\|` spaced |
| Normalization.NormalizeSpacesOperators | src/tokenizer.py:55-62 | in the output of `normalize`, every comparison operator, `&&` and `\|\|` not at an end has whitespace on each side |
| Normalization.CollapseSingleSpaced | src/tokenizer.py:61 | collapsing is the identity on text that is already single-spaced |
| Normalization.PadComparisonsPlain | src/tokenizer.py:57 | text with no `!`, `=`, `<` or `>` is left unchanged by the comparison padding |
| Normalization.PadConnectivesPlain | src/tokenizer.py:58 | text with no `&` or `\|` is left unchanged by the connective padding |
| NormalizationExamples.SpacesComparison | src/tokenizer.py:55-62 | `a >=b` normalizes to `a >= b` |
| PrediParser.ConsumeAt | src/predi/parser.py:22-29 | `consume` succeeds iff a token is left and carries the expected tag, and returns that token; at the end it reports end of input |
| PrediParser.ParseTokens | src/predi/parser.py:18-20 | a parse starts at token 0, ends at a token no level continues from, and fails on an empty token list |
| PrediParser.ParseLevel | src/predi/parser.py:31-99 | a binary level consumes at least one token and stops where no operator of that level or tighter follows |
| PrediParser.ParseOperand | src/predi/parser.py:31-99 | an operand of a level stops where no tighter operator follows |
| PrediParser.ParseLoop | src/predi/parser.py:35-41 | the `while` loop of a level returns its start tree if it consumes nothing, and otherwise a node of a level-`k` operator |
| PrediParser.ParseFactor | src/predi/parser.py:101-133 | a factor consumes at least one token and starts at a literal, `(`, an operand or a prefix operator |
| PrediParser.FactorLiteral | src/predi/parser.py:105-113 | booleans, addresses and bytes literals are childless leaves with no postfix |
| PrediParser.ParseGrouped | src/predi/parser.py:114-118 | a parenthesised factor ends just after a `)` that lies past the `(` |
| PrediParser.FactorGrouped | src/predi/parser.py:114-118 | a parenthesised factor is the inner expression and ends just after its `)` |
| PrediParser.FactorPrefix | src/predi/parser.py:123-132 | `!`, unary `+` and unary `-` build a node with exactly one child |
| PrediParser.FactorOperand | src/predi/parser.py:119-122 | an operand is its leaf, or the last step of the postfix chain after it |
| PrediParser.ParsePostfix | src/predi/parser.py:135-160 | the postfix loop stops at the first token that is not `.`, `[` or `(`, and returns the start node iff it consumed nothing |
| PrediParser.PostfixStep | src/predi/parser.py:136-159 | each postfix step consumes input and yields a member leaf, an index node or a call node |
| PrediParser.PostfixMember | src/predi/parser.py:140-143 | `.` must be followed by an identifier and gives the childless leaf `v.m` |
| PrediParser.ParseIndex | src/predi/parser.py:144-148 | an index step ends just after a `]` and yields a node of postfix shape |
| PrediParser.PostfixIndex | src/predi/parser.py:144-148 | a successful `[` step gives `v[]` whose only child is the expression parsed after the `[` |
| PrediParser.ParseCall | src/predi/parser.py:149-158 | a call step ends just after a `)` and yields a node of postfix shape |
| PrediParser.PostfixCall | src/predi/parser.py:149-158 | a successful `(` step gives `v()` whose children are the arguments parsed after the `(` |
| PrediParser.ParseArguments | src/predi/parser.py:151-156 | the argument loop stops at `)` or at the end, and extends the arguments collected so far |
| PrediParser.Parser.constructor | src/predi/parser.py:14-16 | a new parser holds the tokens with its cursor at 0 |
| PrediParser.Parser.Parse | src/predi/parser.py:18-20 | the result and final cursor are those of `ParseTokens`, whatever the cursor was before, so parsing twice gives the same tree; the cursor stays within the tokens |
| PrediParser.Parser.Consume | src/predi/parser.py:22-29 | the method returns `ConsumeAt`, and moves the cursor by one exactly on success |
| PrediParser.Parser.Level | src/predi/parser.py:31-99 | each level method's result and final cursor are those of `ParseLevel`, and the cursor never passes the end of the tokens |
| PrediParser.Parser.Operand | src/predi/parser.py:31-99 | the result and final cursor are those of `ParseOperand` |
| PrediParser.Parser.Factor | src/predi/parser.py:101-133 | the result and final cursor are those of `ParseFactor` |
| PrediParser.Parser.Postfix | src/predi/parser.py:135-160 | the postfix loop's result and final cursor are those of `ParsePostfix` |
| PrediParser.Parser.Step | src/predi/parser.py:137-159 | one loop body's result and cursor are those of `PostfixStep` |
| PrediParser.Parser.Arguments | src/predi/parser.py:151-156 | the argument loop's result and cursor are those of `ParseArguments` |
| PrediParserProperties.OperatorStops | src/predi/parser.py:31-99 | an operator of one level is not an operator of any tighter level, and starts no postfix |
| PrediParserProperties.FactorAtom | src/predi/parser.py:119-122 | an operand with no postfix after it is the leaf of its lexeme |
| PrediParserProperties.LevelAtom | src/predi/parser.py:31-99 | with no operator after it, that leaf is the whole of every level |
| PrediParserProperties.BinaryAt | src/predi/parser.py:31-99 | `x op y` parses to the node `op` over the two leaves at the level of `op` and at every looser level |
| PrediParserProperties.LeftNested | src/predi/parser.py:35-41 | operators of one level associate to the left: `x op1 y op2 z` is `(x op1 y) op2 z` |
| PrediParserProperties.Precedence | src/predi/parser.py:31-99 | a tighter operator binds first: `x op1 y op2 z` is `x op1 (y op2 z)` |
| PrediParserProperties.ComparisonsJoined | src/predi/parser.py:31-71 | `w == x && y >= z` is a connective over two complete comparisons |
| PrediParserProperties.ComplexPredicate | tests/test_parser.py:18-27 | `msg.sender != msg.origin && a >= b` parses to `&&` over the `!=` and `>=` nodes |
| PrediParserProperties.NotOperator | tests/test_parser.py:30-36 | `!msg.sender` parses to `!` over the leaf |
| PrediParserProperties.UnaryMinus | src/predi/parser.py:128-132 | `-1` parses to `-` over the single leaf `1` |
| PrediParserProperties.TrailingTokensIgnored | src/predi/parser.py:18-20 | tokens after the first complete expression are not read: `a b` parses to `a` |
| PrediParserProperties.ArgumentsWithoutComma | src/predi/parser.py:152-156 | the comma between arguments is optional: `a b)` reads two arguments |
| PrediParserProperties.CallWithoutComma | src/predi/parser.py:149-158 | `f(a b)` is the call `f()` over `a` and `b` |
| LegacyParser.ConsumeAt | src/parser.py:117-123 | `consume` succeeds iff a token is left with the expected tag; past the end it is an index error |
| LegacyParser.ParseTokens | src/parser.py:17-19 | a parse starts at token 0 and ends where no level continues; an empty token list is an index error |
| LegacyParser.ParseLevel | src/parser.py:21-89 | a level consumes at least one token and stops where no operator of that level or tighter follows; at the end it is an index error |
| LegacyParser.ParseOperand | src/parser.py:21-89 | an operand of a level stops where no tighter operator follows |
| LegacyParser.ParseLoop | src/parser.py:25-31 | the loop of a level returns its start tree if it consumes nothing, and otherwise a node of a level-`k` operator |
| LegacyParser.ParseFactor | src/parser.py:91-115 | a factor starts at `(`, an operand or a prefix operator; reading past the end is an index error |
| LegacyParser.NumberWithUnit | src/parser.py:100-106 | an INTEGER followed by an IDENTIFIER is the single leaf `"N unit"`, two tokens long |
| LegacyParser.PlainOperand | src/parser.py:107-109 | any other operand is the leaf of its lexeme |
| LegacyParser.PrefixOperator | src/parser.py:110-113 | `+`, `-` and `!` build a node with exactly one child |
| LegacyParser.Grouped | src/parser.py:95-99 | a parenthesised factor ends just after its `)`, or fails naming the token found instead |
| LegacyParser.UnexpectedFactor | src/parser.py:115 | a token that starts no factor is rejected with its tag and position |
| LegacyParser.OperandAtom | src/parser.py:21-109 | an operand with nothing binding after it is the leaf of its lexeme at every level |
| LegacyParser.OperatorStops | src/parser.py:21-89 | an operator of one level is not an operator of any tighter level |
| LegacyParser.LeftNested | src/parser.py:25-31 | operators of one level associate to the left |
| LegacyParser.DanglingOperator | src/parser.py:91-92 | an operator with nothing after it is an index error, not a tree |
| LegacyParser.Parser.constructor | src/parser.py:13-15 | a new parser holds the tokens with its cursor at 0 |
| LegacyParser.Parser.Parse | src/parser.py:17-19 | the result and final cursor are those of `ParseTokens` |
| LegacyParser.Parser.Consume | src/parser.py:117-123 | the method returns `ConsumeAt` and moves the cursor exactly on success |
| LegacyParser.Parser.Level | src/parser.py:21-89 | the result and final cursor are those of `ParseLevel` |
| LegacyParser.Parser.Operand | src/parser.py:21-89 | the result and final cursor are those of `ParseOperand` |
| LegacyParser.Parser.Factor | src/parser.py:91-115 | the result and final cursor are those of `ParseFactor` |
| Symbolic.Connective | src/predi/comparator.py:84-110 | `&&`/`\|\|` build `And`/`Or` of any arity; `!` needs exactly one operand and a comparison exactly two, else it fails with a wrong-arity error |
| Verdicts.VerdictTextsDistinct | src/predi/comparator.py:65-72 | the four result sentences are pairwise different, so the sentence identifies the verdict |
| PrediComparator.LeafExpr | src/predi/comparator.py:75-82 | a leaf becomes a float, an integer, or a symbol named by its text with `.` replaced by `_` |
| PrediComparator.LowerAll | src/predi/comparator.py:83 | lowering the children yields one expression per child, and succeeds exactly when every child is `Lowerable` |
| PrediComparator.Lower | src/predi/comparator.py:74-97 | lowering succeeds exactly on trees whose every internal node has an operand count its value accepts (`Lowerable`): `!` one, a comparison two, `/` at least two, and `-` at least two as written or at least one corrected |
| PrediComparator.Combine | src/predi/comparator.py:84-97 | a node is built exactly when its value accepts the operand count (`ArityOk`); otherwise it fails with a missing operand or a wrong arity for that value |
| PrediComparator.MinusAsWritten | src/predi/comparator.py:90-91 | as written, `-` succeeds iff the node has at least two operands, and otherwise raises on the missing operand |
| PrediComparator.Minus | src/predi/comparator.py:90-91 | the corrected `-` accepts one or more operands and agrees with the code whenever there are two or more |
| PrediComparator.ToZ3 | src/predi/comparator.py:112-132 | a translated expression is made only of supported nodes; only a symbol becomes a real; numbers, `!=` and anything else raise |
| PrediComparator.ToZ3All | src/predi/comparator.py:125-128 | operands translate one for one, all of supported nodes |
| PrediComparator.NegationIdiomAsWritten | src/predi/comparator.py:153-189 | the negation/truth rules as written reduce to a strictly smaller question |
| PrediComparator.NegationIdiom | src/predi/comparator.py:153-189 | the corrected rules fire in exactly the same cases as written, on a strictly smaller question |
| PrediComparator.FalseDisjunct | src/predi/comparator.py:193-198 | the `x == false` operand of a two-operand `Or` and its partner are both smaller than the `Or`, and such an `Or` holds a comparison |
| PrediComparator.NotOrIdiom | src/predi/comparator.py:191-206 | the `!p` against `x == false \|\| other` rules reduce to two strictly smaller questions, and fire only when a side holds a comparison |
| PrediComparator.Idiom | src/predi/comparator.py:153-189 | under either rules, the negation/truth rules fire in exactly the cases the program's do, on a strictly smaller question |
| PrediComparator.Implies | src/predi/comparator.py:134-292 | `_implies` on two sides with no comparison anywhere never raises; each of its rules is stated by a lemma below (`ImpliesReflexive` to `TranslationErrorEscapes`) |
| PrediComparator.Dispatch | src/predi/comparator.py:153-292 | the rules after the first two never raise on comparison-free sides; what each rule answers is in `RightAnd`, `LeftAnd`, `RightOr`, `LeftOr`, `FunctionRule`, `SymbolRule`, and in meaning in `RightAndMeaning`, `LeftAndSound`, `RightOrSound`, `LeftOrMeaning` |
| PrediComparator.AllPairs | src/predi/comparator.py:208-214 | the pairwise check never raises on comparison-free operands; `AllPairsMeaning` states when it is true and when false |
| PrediComparator.EachRight | src/predi/comparator.py:217-235 | the answers against the right operands, one per operand, none raising on comparison-free operands |
| PrediComparator.EachLeft | src/predi/comparator.py:224-242 | the answers for the left operands, one per operand, none raising on comparison-free operands |
| PrediComparator.SelectVerdict | src/predi/comparator.py:65-72 | equivalent iff both directions hold; first stronger iff only forwards; second stronger iff only backwards; unrelated iff neither |
| PrediComparator.Front | src/predi/comparator.py:19-29 | tokenizing and parsing fail only with a lexing or a parsing error, and succeed only on text the tokenizer accepts |
| PrediComparator.CompareTrees | src/predi/comparator.py:33-72 | after parsing, no lexing or parsing error can arise, and a lowering error arises exactly when a tree is not `Lowerable` |
| PrediComparator.Compare | src/predi/comparator.py:17-72 | a verdict needs both predicates through tokenizing and parsing, and a lexing or parsing error arises exactly when one of them fails there; its verdicts are stated in `CompareSwap`, `CompareSelf` and `CompareOfSides` |
| PrediComparatorProperties.SelectVerdictSwap | src/predi/comparator.py:65-72 | exchanging the two answers exchanges the two "stronger" verdicts and keeps the others |
| PrediComparatorProperties.CompareSwap | src/predi/comparator.py:17-72 | comparing in the other order fails exactly when the first order fails, and otherwise swaps "first" and "second stronger" |
| PrediComparatorProperties.CompareSelf | src/predi/comparator.py:17-72 | a predicate compared with itself is equivalent, unless a stage raises |
| PrediComparatorProperties.IdenticalSidesEquivalent | src/predi/comparator.py:39-72 | predicates whose simplified sides coincide are equivalent |
| PrediComparatorProperties.CompareOfSides | src/predi/comparator.py:33-72 | once lowering and simplifying get through and both implications answer, the verdict is the one those two answers select |
| PrediComparatorProperties.ImpliesReflexive | src/predi/comparator.py:139-141 | every expression implies itself |
| PrediComparatorProperties.ZeroDifferenceFallsThrough | src/predi/comparator.py:144-151 | a zero-difference test that fails or raises hands the question to the structural rules |
| PrediComparatorProperties.AllPairsMeaning | src/predi/comparator.py:208-214 | the pairwise check holds iff every pair holds, and is false iff some pair is false after only holding pairs |
| PrediComparatorProperties.EachRightMeaning | src/predi/comparator.py:217-221 | the list of answers against each right operand is computed in full, one per operand, unless one raises |
| PrediComparatorProperties.EachLeftMeaning | src/predi/comparator.py:224-228 | the list of answers for each left operand is computed in full, one per operand, unless one raises |
| PrediComparatorProperties.PairwiseAnd | src/predi/comparator.py:208-210 | two `And`s of equal length: the implication holds iff each operand implies its partner in the given order |
| PrediComparatorProperties.PairwiseOr | src/predi/comparator.py:212-214 | two `Or`s of equal length: the implication holds iff each operand implies its partner in the given order |
| PrediComparatorProperties.OperandOrderMatters | src/predi/comparator.py:208-210 | `a && b` does not imply `b && a` by the rules: no permutation is tried |
| PrediComparatorProperties.RightAnd | src/predi/comparator.py:217-221 | against an `And`: true iff every operand is implied; an error iff some operand's check raises |
| PrediComparatorProperties.LeftAnd | src/predi/comparator.py:224-228 | from an `And`: true iff some operand implies and none raises; an error iff some operand's check raises |
| PrediComparatorProperties.RightOr | src/predi/comparator.py:231-235 | against an `Or`: true iff some operand is implied and none raises; an error iff some operand's check raises |
| PrediComparatorProperties.LeftOr | src/predi/comparator.py:238-242 | from an `Or`: true iff every operand implies; an error iff some operand's check raises |
| PrediComparatorProperties.RightAndMeaning | src/predi/comparator.py:217-221 | in meaning, an expression entails a conjunction iff it entails every operand, which is what the right-`And` rule checks |
| PrediComparatorProperties.LeftAndSound | src/predi/comparator.py:224-228 | in meaning, one operand entailing the right side makes the conjunction entail it: the left-`And` rule is sound |
| PrediComparatorProperties.RightOrSound | src/predi/comparator.py:231-235 | in meaning, entailing one of several boolean operands entails their disjunction: the right-`Or` rule is sound |
| PrediComparatorProperties.LeftOrMeaning | src/predi/comparator.py:238-242 | in meaning, a disjunction of boolean operands entails the right side iff every operand does, which is what the left-`Or` rule checks |
| PrediComparatorProperties.FunctionRule | src/predi/comparator.py:245-249 | two applications: true iff the names and arities agree and the arguments imply pairwise; false when names or arities differ |
| PrediComparatorProperties.SymbolRule | src/predi/comparator.py:251-252 | two symbols: true iff they are the same symbol or their difference simplifies to zero |
| PrediComparatorProperties.NoRuleGivesFalse | src/predi/comparator.py:254-292 | for an arithmetic left side, and a right side that is neither `And` nor `Or`, only identity or a zero difference gives true |
| PrediComparatorProperties.SatisfiabilityRaisesGivesFalse | src/predi/comparator.py:280-291 | when the satisfiability check raises, the relational rule answers false |
| PrediComparatorProperties.TranslationErrorEscapes | src/predi/comparator.py:260-278 | an equality against a non-equality goes to z3; a translation error of either side escapes `_implies`, and otherwise the answer is "z3 did not find sat" |
| PrediComparatorProperties.EqualityAgainstBoundRaises | src/predi/comparator.py:260-265 | `x == 1` against `x > 0` raises on the number `1` |
| PrediComparatorProperties.LowerInteger | src/predi/comparator.py:75-79 | the decimal text of a natural number lowers to that integer |
| PrediComparatorProperties.LowerSymbolLeaf | src/predi/comparator.py:80-82 | a non-numeric leaf lowers to a symbol whose name has no `.` left |
| PrediComparatorProperties.LowerDottedName | src/predi/comparator.py:80-82 | a dotted name `a.b` lowers to the symbol `a_b` |
| PrediComparatorProperties.LowerPair | src/predi/comparator.py:83 | two children lower left to right into their two expressions |
| PrediComparatorProperties.LowerBinaryConnective | src/predi/comparator.py:84-85 | `&&`, `\|\|` and the comparisons lower to the sympy class of their operator over the lowered operands |
| PrediComparatorProperties.LowerSubtraction | src/predi/comparator.py:90-91 | `a - b` lowers to `a + (-1)*b`, whose integer value is the difference |
| PrediComparatorProperties.LowerDivision | src/predi/comparator.py:86-87 | `a / b` lowers to `b^-1 * a` |
| PrediComparatorProperties.LowerCall | src/predi/comparator.py:94-96 | a value holding `()` lowers to an application of the name without its `()` |
| PrediComparatorProperties.LowerCollapses | src/predi/comparator.py:97 | any other internal node, an index `used[]` for one, lowers to the symbol of its value, and its children are dropped |
| PrediComparatorProperties.NameLowered | src/predi/comparator.py:80-82 | a name made of letters lowers to the symbol of that name |
| PrediComparatorProperties.CorrectedAgrees | src/predi/comparator.py:74-97 | the corrected lowering accepts every tree the program's lowering accepts, and builds the same expression from it |
| PrediComparatorProperties.MinusMeaning | src/predi/comparator.py:90-91 | the corrected `-` means negation of one operand and difference of two |
| PrediComparatorProperties.UnaryMinusAsWritten | src/predi/comparator.py:90-91 | `-1` parses to `-` over one leaf, the `-` branch as written raises on it, and the corrected lowering gives `(-1)*1` |
| PrediComparatorProperties.MinusOneFront | src/predi/comparator.py:19-22 | the text `-1 ` tokenizes and parses to the unary `-` over the leaf `1` |
| PrediComparatorProperties.UnaryMinusCompared | src/predi/comparator.py:90-91 | `compare` on `-1 ` against itself raises on the missing operand as written, whatever the oracles answer; with the corrected rules it is "equivalent" once sympy simplifies |
| PrediComparatorProperties.FalseEqualityMeansFalse | src/predi/comparator.py:159-164 | `x == false`, either way round, is true exactly where `x` is false |
| PrediComparatorProperties.TrueEqualityMeansTrue | src/predi/comparator.py:180-189 | `x == true`, either way round, is true exactly where `x` is true |
| PrediComparatorProperties.Contrapositive | src/predi/comparator.py:153-176 | between boolean expressions, `x` entails `y` iff `!y` entails `!x` |
| PrediComparatorProperties.NegationIdiomSound | src/predi/comparator.py:153-189 | for boolean operands, the corrected sub-question holds iff the implication it replaces holds |
| PrediComparatorProperties.SymbolImpliesDisjunction | src/predi/comparator.py:231-235 | a symbol implies `a \|\| c`, both by the rules and in meaning |
| PrediComparatorProperties.DisjunctionNotFirst | src/predi/comparator.py:238-242 | `s \|\| c` does not imply `s` by the left-`Or` rule, and does not entail it in meaning |
| PrediComparatorProperties.NotAgainstFalseAsWritten | src/predi/comparator.py:154-164 | the program answers `!a => ((a \|\| c) == false)` true, by way of `a => a \|\| c`, though the implication does not hold |
| PrediComparatorProperties.NotAgainstFalseCorrected | src/predi/comparator.py:154-164 | the corrected rule answers `!a => ((a \|\| c) == false)` false when the zero-difference test does not fire |
| PrediComparatorProperties.FalseAgainstNot | src/predi/comparator.py:166-176 | both engines answer `((a \|\| c) == false) => !a` true, and the implication holds in meaning |
| PrediComparatorProperties.NotAgainstFalseTrees | src/predi/comparator.py:33-72 | on the parse trees of `!a` and `(a \|\| c) == false`, the program answers "equivalent" and the corrected engine "second stronger" |
| PrediComparatorProperties.NotAgainstFalseCompared | src/predi/comparator.py:17-72 | `compare` on `!a` and `(a \|\| c) == false` answers "equivalent" as written and "second stronger" corrected, and the second verdict is the true one |
| PrediComparatorProperties.TrueAgainstSymbolAsWritten | src/predi/comparator.py:185-189 | the program answers `((s \|\| c) == true) => s` true, by way of `s => s \|\| c`, though the implication does not hold |
| PrediComparatorProperties.TrueAgainstSymbolCorrected | src/predi/comparator.py:185-189 | the corrected rule answers `((s \|\| c) == true) => s` false when the zero-difference test does not fire |
| PrediComparatorProperties.SymbolAgainstTrue | src/predi/comparator.py:179-183 | both engines answer `s => ((s \|\| c) == true)` true, and the implication holds in meaning |
| PrediComparatorProperties.TrueAgainstSymbolTrees | src/predi/comparator.py:33-72 | on the parse trees of `(s \|\| c) == true` and `s`, the program answers "equivalent" and the corrected engine "second stronger" |
| PrediComparatorProperties.TrueAgainstSymbolCompared | src/predi/comparator.py:17-72 | `compare` on `(s \|\| c) == true` and `s` answers "equivalent" as written and "second stronger" corrected, and the second verdict is the true one |
| LegacyComparator.SymbolOf | src/comparator.py:55 | a leaf lowers to a symbol whose name has no `.` |
| LegacyComparator.AstEqual | src/comparator.py:43-46 | the definition of `_ast_equal`; `AstEqualIsEquality` proves it is exactly equality of trees |
| LegacyComparator.Contains | src/comparator.py:76-80 | the definition of `_contains`; `ContainsSelf`, `ContainsSubtree` and `ContainsBeyondSubtrees` state what it accepts |
| LegacyComparator.Lower | src/comparator.py:53-59 | lowering builds only symbols under connectives and comparisons, and fails only on a wrong operand count |
| LegacyComparator.LowerAll | src/comparator.py:56 | one lowered expression per child, all of the same kind |
| LegacyComparator.IsStronger | src/comparator.py:48-51 | fails only when lowering meets a wrong operand count or the implication's truth cannot be taken, and fails in lowering exactly when one tree does not lower |
| LegacyComparator.Front | src/comparator.py:16-31 | fails only while tokenizing, parsing or simplifying, and succeeds only on text the tokenizer accepts |
| LegacyComparator.Decide | src/comparator.py:34-41 | equivalent iff the trees are equal; first stronger iff they differ and the forward implication holds; second stronger iff only the backward one holds; unrelated iff neither; an error comes only from lowering or deciding |
| LegacyComparator.Compare | src/comparator.py:14-41 | a verdict needs both predicates through tokenizing, parsing and simplifying, and an error of those stages arises exactly when one of them fails there; its verdicts are `Decide`'s |
| LegacyComparatorProperties.AstEqualIsEquality | src/comparator.py:43-46 | `_ast_equal` is exactly equality of trees |
| LegacyComparatorProperties.AstEqualEquivalence | src/comparator.py:43-46 | `_ast_equal` is reflexive, symmetric and transitive |
| LegacyComparatorProperties.ContainsSelf | src/comparator.py:76-80 | every tree contains itself |
| LegacyComparatorProperties.ContainsSubtree | src/comparator.py:76-80 | a tree contains each of its subtrees |
| LegacyComparatorProperties.ContainsBeyondSubtrees | src/comparator.py:76-80 | containment is wider than being a subtree: `(!a) && b` contains `a && b` |
| LegacyComparatorProperties.NonConnectiveCollapses | src/comparator.py:57-59 | a node that is not a connective lowers, its children aside, like a leaf of its value |
| LegacyComparatorProperties.NumbersAreSymbols | src/comparator.py:54-55 | the leaf `1` lowers to the symbol named `1`, not to a number |
| LegacyComparatorProperties.CompareSelf | src/comparator.py:14-41 | a predicate that gets through tokenizing, parsing and simplifying is equivalent to itself |
| LegacyComparatorProperties.EquivalentMeansEqualTrees | src/comparator.py:34-35 | "equivalent" iff both predicates simplify to the same tree |
| LegacyComparatorProperties.MutualImplicationFirstWins | src/comparator.py:36-39 | two different trees that imply each other are "first stronger" in both orders |
| LegacyComparatorProperties.DecideSwap | src/comparator.py:34-41 | outside mutual implication, exchanging the trees exchanges the two "stronger" verdicts |
| Diversify.ChangeLogicalOperators | src/predi/diversify_predicates.py:18-24 | the length is kept; if `&&` occurs, none is left and `\|\|` occurs; else if `\|\|` occurs, none is left and `&&` occurs; else the predicate is unchanged |
| Diversify.Complement | src/predi/diversify_predicates.py:26-38 | each comparison is replaced by a comparison that holds on exactly the integers where the original does not |
| Diversify.NegateCondition | src/predi/diversify_predicates.py:26-40 | the first comparison operator present, in the order `==`, `!=`, `<=`, `>=`, `<`, `>`, is replaced everywhere by its complement, or the predicate is wrapped in `!( )`; `NegateComparison` and `NegateTwice` state its meaning on a single comparison |
| Diversify.Template | src/predi/diversify_predicates.py:43-47 | a template is the parenthesised predicate followed by the suffix |
| Diversify.AddComplexity | src/predi/diversify_predicates.py:42-49 | the result starts with the parenthesised predicate and goes on past it |
| Diversify.SimplifyCondition | src/predi/diversify_predicates.py:51-54 | the first operand of the first connective, trimmed; `SimplifyConditionMeaning` states what it returns |
| Diversify.RandomModification | src/predi/diversify_predicates.py:56-63 | the result starts with the parenthesised predicate and goes on past it |
| Diversify.AdvancedDiversify | src/predi/diversify_predicates.py:5-16 | the result is one of the five strategies applied to the predicate |
| DiversifyProperties.ChangeTwice | src/predi/diversify_predicates.py:18-24 | on a predicate without `\|` or without `&`, changing the connectives twice gives the predicate back |
| DiversifyProperties.ComplementInvolution | src/predi/diversify_predicates.py:26-38 | the complement of the complement is the original comparison |
| DiversifyProperties.OccursAroundOperator | src/predi/diversify_predicates.py:26-38 | in `x op y` with comparison-free operands, an operator text occurs iff it occurs in `op` |
| DiversifyProperties.ReplaceOperator | src/predi/diversify_predicates.py:26-38 | replacing `op` in `x op y` changes only the operator |
| DiversifyProperties.NegateComparison | src/predi/diversify_predicates.py:26-40 | a single comparison `x op y` is negated by replacing `op` with its complement, and nothing else changes |
| DiversifyProperties.NegateTwice | src/predi/diversify_predicates.py:26-40 | negating a single comparison twice gives it back |
| DiversifyProperties.SimplifyConditionMeaning | src/predi/diversify_predicates.py:51-54 | the output holds no `&&` or `\|\|`, is a piece of the input preceded only by whitespace, and is the input itself when no connective occurs |
| DiversifyProperties.TemplatePredicate | src/predi/diversify_predicates.py:43-47 | the characters of a template after its opening `(` are the predicate itself |
| DiversifyProperties.AddComplexityInjective | src/predi/diversify_predicates.py:42-49 | the result determines both the predicate and the template chosen |
| DiversifyProperties.RandomModificationInjective | src/predi/diversify_predicates.py:56-63 | the result determines both the predicate and the template chosen |

## Left out

- The sympy, z3 and tree-simplifier libraries are parameters (oracles), not models. This covers `sp.simplify`, sympy's construction-time evaluation (flattening, constant folding and the type errors it raises), `satisfiable` with LRA, `Solver.check`, `Simplifier.simplify`, and the truth of `sp.simplify(sp.Implies(a, b))`.
- Errors raised while building a sympy node are reported as `Simplifying`. In the legacy comparator, errors raised while building or simplifying the implication are reported as `Deciding`.
- z3's answer `unknown` counts as "not sat", as in the code, which tests only for `sat`.
- Python's `float()` is modelled on the texts a leaf can hold. Its leniency (surrounding whitespace, `inf`, `nan`, underscores) is not modelled, nor is `int()` on non-ASCII digits. Regex classes `\w`, `\d` and `\s` are modelled on ASCII, with `\s` as the whitespace set of `str.isspace`.
- Floats are kept as their text (`Dec`). No floating-point arithmetic is modelled, except that the tokenizer rounds a scientific literal to the nearest double (`Binary64`), which is exact integer arithmetic on the literal's value. Numbers have an integer meaning only for the integer fragment (`Value`), and powers and function applications have no meaning.
- Debug printing (`printer`, `debug_print`, `print`) is left out. So are the configuration modules, `main.py` and the CLI.
- `Parser.function_call` (src/predi/parser.py:162-174) is left out: nothing calls it.
- The CSV reading and writing of `diversify_predicates` (src/predi/diversify_predicates.py:65-81) is file I/O and is left out.
- `random.choice` becomes index parameters.
- `Diversify.NegateCondition`: its general meaning is not stated in its own contract. It is proved only for a single comparison between comparison-free operands (`NegateComparison`, `NegateTwice`). With several comparisons only the first operator kind found is replaced, so the result is not a negation: `a == b && c > d` becomes `a != b && c > d`.
- `Diversify.SimplifyCondition`: its contract sits in `SimplifyConditionMeaning` rather than on the function.
- `PrediComparator.Implies`, `Dispatch`, `AllPairs` and `Compare`: their own contracts state only when they cannot raise, or that a verdict needs both front ends. What each rule answers, and the verdicts, are stated by the lemmas in `PrediComparatorProperties`.
- `LegacyComparator.AstEqual` and `Contains` are definitions with no `ensures` of their own. Their meaning is given by the lemmas in `LegacyComparatorProperties`.
- `LegacyComparator.Compare`: its own contract states only which stage an error comes from. Its verdicts are stated by `Decide` and the lemmas in `LegacyComparatorProperties`.
- `_contains` is modelled and its properties proved, but nothing in the comparator calls it.
- The tokenizer fallback for a lone `(`, `)` or `,` (src/tokenizer.py:87-96) is left out of `Tokenize`, because `DelimitersAlwaysMatch` proves it unreachable.
- `NormalizationExamples.SpacesComparison` covers a short input. The longer normalization test string is covered by the general lemmas `NormalizeKeepsText`, `NormalizeCanonical`, `NormalizeSpacesParentheses` and `NormalizeSpacesOperators`, not as a concrete example.
- `Normalization.PadComparisons`: its contract states only that padding never shortens the string. That it changes only whitespace is in `PadComparisonsKeepsText`, and that it spaces the operators is in `PadComparisonsSpaced`.
- `Normalization.PadConnectives`: its contract states only that padding never shortens the string. That it changes only whitespace is in `PadConnectivesKeepsText`, and that it spaces `&&` and `\|\|` is in `PadConnectivesSpaced`.
- Recursion depth and Python's recursion limit are not modelled.

## Findings

| source | as written | input that shows it | evidently intended | confidence | as-written member | corrected member |
|---|---|---|---|---|---|---|
| src/predi/comparator.py:154-164 | `!p` against `q == false` asks whether `p` implies `q` | `!a` against `(a \|\| c) == false`: the rules answer true and `compare` says "equivalent" (`NotAgainstFalseCompared`), yet `a` false and `c` true make the left side true and the right side false | ask whether `q` implies `p`, the contrapositive | not executed | PrediComparatorProperties.NotAgainstFalseAsWritten | PrediComparatorProperties.NegationIdiomSound |
| src/predi/comparator.py:185-189 | `q == true` against a symbol `s` asks whether `s` implies `q` | `(s \|\| c) == true` against `s`: the rules answer true and `compare` says "equivalent" (`TrueAgainstSymbolCompared`), yet `s` false and `c` true make the left side true and the right side false | ask whether `q` implies `s` | not executed | PrediComparatorProperties.TrueAgainstSymbolAsWritten | PrediComparatorProperties.NegationIdiomSound |
| src/predi/comparator.py:90-91 | the `-` branch always reads `args[1]` | `-1`: the parser builds `-` over the one leaf `1`, and lowering raises `IndexError`, so `compare` raises (`UnaryMinusCompared`) | negate a single operand | not executed | PrediComparatorProperties.UnaryMinusAsWritten | PrediComparatorProperties.MinusMeaning |
