# Dice notation roller — a Dafny model

This project models the dice-notation interpreter of `src/scripts/dice_roller.py`.
The interpreter reads expressions such as `4d6kh3+2`, `2d1+3d1*2` or `5d6>=4` and rolls
them with an unbiased secure random source. It answers with a result record or an error
record. The model has five parts, and each follows the shape of the source:

- **Die source** (`csprng.dfy`, module `Csprng`). `CSPRNG.roll_die` draws bytes by
  rejection sampling.
  - The entropy is a class `EntropySource`. Its byte stream (`secrets.token_bytes`) and its
    fallback (`secrets.randbelow`) are fixed oracles, and it holds cursors into both.
  - `RollDie` is a method. It is proved equal to the function `Roll` of the old cursor.
  - Lemmas show that the acceptance bound is a multiple of the die size, and that every
    face is hit by the same number of accepted draws.
- **Tokenizer** (`tokenizer.dfy`, module `Lexer`). The class `Tokenizer` appends tokens and
  moves a cursor: `Tokenize`, `Peek`, `Consume`, `AtEnd`.
  - The pattern alternation is re-implemented by hand as `MatchAt`/`Scan`. The first
    alternative that matches wins. Whitespace, comments and characters that match
    nothing give no token.
- **Parser** (`parser_spec.dfy`, `parser.dfy`, `parser_props.dfy`, `grouping.dfy`,
  `expressions.dfy`). The recursive descent is written twice:
  - once as pure functions over the token sequence (`ParserSpec`);
  - once as the class `DiceParser`, with its `recursionDepth` field and its loops. Each of
    its methods is proved equal to the matching function.
  - `ParserProps` covers the nesting limit, where errors point, and a round trip from
    arithmetic expressions to tokens and back.
  - `Grouping` proves that the two operator loops build left folds. From that it proves
    precedence (`a + b * c` is `a + (b * c)`, `a * b + c` is `(a * b) + c`) and left
    associativity (`a - b - c` is `(a - b) - c`, `a / b / c` is `(a / b) / c`).
  - `Expressions` runs the tokenizer and the parser on the expressions of the tests. For
    example, `2d1+3d1*2` becomes `2d1 + (3d1 * 2)`.
- **Evaluator** (`eval_spec.dfy`, `evaluator.dfy`, `eval_props.dfy`). `_eval_node` and
  `_eval_dice` become spec functions that thread the entropy cursor. These cover rolling,
  rerolls, explosions, keep/drop, sorting, and then success counting or summing.
  - The class `DiceEvaluator` appends to `traces`. Its loops are proved equal to those
    functions.
  - Lemmas state what each modifier guarantees: the reroll history, the explosion
    increments and ceiling, the kept values as the largest or smallest totals, and sums
    unchanged by sorting.
- **Result assembly** (`roller.dfy`, module `Roller`). `roll_dice` builds the success record
  (value, result type, traces, metadata) or the error record for each error class.
  `scenarios.dfy` derives the responses that do not depend on the entropy. It starts from
  the text of `1d1`, `2d1+3d1*2`, `4d1dh1`, `4d1kl3`, `1d1!`, `5d6>=1` and `10d10>=7!`.

The model follows the code where the notation's own description differs. The description
gives `10d10>=7!` as an example. In the code a comparator ends the modifier loop
(`src/scripts/dice_roller.py:422`), so the `!` is left over and the parse fails with
"Unexpected token '!' after expression" (`Expressions.ComparatorThenExplode`). These quirks are kept as the code has them:

- The plain sum ignores explosion increments except for Fate dice.
- Success flags go on the first `len(kept)` dice after sorting.
- `kl0` keeps every die and `dl0` keeps none.
- The trace shows a resolved `'max'` explosion threshold (`3d6!>=6`).

## Model

All source paths below are in `src/scripts/dice_roller.py` unless they name a test file.

| member | source | states |
|---|---|---|
| DiceTypes.CompOpOf | src/scripts/dice_roller.py:414 | a text is a comparator exactly when it is one of `>=`, `<=`, `=`, `>`, `<` |
| DiceTypes.OpText | src/scripts/dice_roller.py:548 | the text printed for a comparator reads back as the same comparator |
| DiceTypes.NatToString | src/scripts/dice_roller.py:699 | `str(n)` of a natural number is a non-empty run of decimal digits |
| DiceTypes.DigitsRoundTrip | src/scripts/dice_roller.py:699 | the decimal text `str(n)` of a number reads back (`int`) as that number |
| DiceTypes.Lower | src/scripts/dice_roller.py:204 | `lower()` keeps the length and lower-cases each character in place |
| Csprng.ByteWidth | src/scripts/dice_roller.py:131 | definition: `bytes_needed`, the whole bytes covering the bit length of `sides`; `Csprng.SidesFit` proves that their range covers the die |
| Csprng.MaxValue | src/scripts/dice_roller.py:132 | definition: `max_value = 256^bytes_needed`; `Csprng.SidesFit` proves that `sides` is below it |
| Csprng.Bound | src/scripts/dice_roller.py:133 | definition: the largest multiple of `sides` not above `max_value`; `Csprng.BoundProperties` proves that it is a positive multiple within `sides` of `max_value`, and `Csprng.Unbiased` that every face has `bound/sides` accepted values below it |
| Csprng.FromBytes | src/scripts/dice_roller.py:139 | definition: `int.from_bytes(…, 'big')`; `Csprng.FromBytesBound` proves that `w` bytes give a value below `256^w` |
| Csprng.BitLengthBound | src/scripts/dice_roller.py:131 | `sides < 2^bit_length(sides)` |
| Csprng.SidesFit | src/scripts/dice_roller.py:131-132 | the die size is below `max_value = 256^bytes_needed` |
| Csprng.BoundProperties | src/scripts/dice_roller.py:131-133 | `bound` is a multiple of `sides`, `sides <= bound <= max_value`, and `bound/sides == max_value/sides` |
| Csprng.FromBytesBound | src/scripts/dice_roller.py:139 | a big-endian value of `b` bytes is below `256^b` |
| Csprng.PreimagesCount | src/scripts/dice_roller.py:141 | among `0..n-1`, face `f` is `v % sides + 1` for exactly `n/sides` values, plus one when `n % sides >= f` |
| Csprng.Unbiased | src/scripts/dice_roller.py:133-141 | every face in `1..sides` comes from exactly `bound/sides` accepted draws |
| Csprng.FaceOf | src/scripts/dice_roller.py:141 | `v % sides + 1` lies in `1..sides` |
| Csprng.Rejection | src/scripts/dice_roller.py:136-142 | the rejection loop only moves the byte cursor forward and, when it accepts, gives a face in `1..sides` |
| Csprng.Attempt | src/scripts/dice_roller.py:137-142 | one pass of the loop body never moves the byte cursor back and accepts only a face in `1..sides` |
| Csprng.RejectionAccepts | src/scripts/dice_roller.py:137-141 | an accepted result is `v % sides + 1` for the last `v` read, with `v < bound` |
| Csprng.RejectionStep | src/scripts/dice_roller.py:138-142 | one attempt accepts `v < bound` as its face and otherwise tries again on the next bytes |
| Csprng.Roll | src/scripts/dice_roller.py:120-145 | sizes in `1..MAX_SIDES` give a face in range; `d1` gives 1 without drawing; out-of-range sizes fail without drawing |
| Csprng.EntropySource.constructor | src/scripts/dice_roller.py:454 | a fresh source starts at the beginning of both oracles |
| Csprng.EntropySource.TokenBytes | src/scripts/dice_roller.py:138 | returns the next `n` bytes of the stream and moves past them |
| Csprng.EntropySource.RandBelow | src/scripts/dice_roller.py:145 | returns the fallback's next value, which is below `n` |
| Csprng.EntropySource.RollDie | src/scripts/dice_roller.py:109-145 | `ValueError` below 1 side and `LimitError` above `MAX_SIDES`, both without drawing; 1 for `d1`; otherwise a face in range; always `Roll` of the old cursor |
| Csprng.EntropySource.Sample | src/scripts/dice_roller.py:129-145 | for `2 <= sides <= MAX_SIDES`, a face in range equal to `Roll` of the old cursor |
| Csprng.EntropySource.RejectionLoop | src/scripts/dice_roller.py:136-142 | the `while attempts < 10000` loop finds a face exactly when `Rejection` accepts, and leaves the cursor where `Rejection` does |
| Lexer.IsSpace | src/scripts/dice_roller.py:161-165 | definition: Python's whitespace in the Latin-1 range, for `\s` and `strip()`; `Lexer.Strip` and `Lexer.SpaceRun` are stated with it |
| Lexer.Scan | src/scripts/dice_roller.py:170-181 | definition: `finditer` from an offset, keeping every match that is not whitespace or a comment; `Lexer.ScanWellFormed` proves the tokens non-empty, in increasing position order and equal to the text at their position, and `Lexer.Tokenizer.Tokenize` is proved to build exactly these tokens |
| Lexer.LeadingSpaces | src/scripts/dice_roller.py:165 | counts exactly the whitespace prefix |
| Lexer.TrailingSpaces | src/scripts/dice_roller.py:165 | counts exactly the whitespace suffix |
| Lexer.Strip | src/scripts/dice_roller.py:165 | the stripped text is the slice between the leading and trailing whitespace, and neither starts nor ends with whitespace |
| Lexer.StripUnspaced | src/scripts/dice_roller.py:165 | text with no whitespace at either end is unchanged by stripping |
| Lexer.DigitRun | src/scripts/dice_roller.py:152 | `\d+` takes the longest run of digits |
| Lexer.SpaceRun | src/scripts/dice_roller.py:161 | `\s+` takes a run of whitespace within the text |
| Lexer.LineRun | src/scripts/dice_roller.py:160 | a `#` comment `[^\n]*` stays within the text and never takes a newline |
| Lexer.MatchAt | src/scripts/dice_roller.py:151-162 | a match is non-empty and inside the text, and only whitespace or `#` starts a skipped match |
| Lexer.Resume | src/scripts/dice_roller.py:172 | `finditer` always resumes strictly after the current offset |
| Lexer.ScanStep | src/scripts/dice_roller.py:172-181 | the tokens from an offset are what that offset contributes followed by the tokens from where the scan resumes |
| Lexer.KeptToken | src/scripts/dice_roller.py:173-181 | an offset contributes no token, or exactly the matched slice at its own offset, not starting with whitespace or `#` |
| Lexer.ScanWellFormed | src/scripts/dice_roller.py:170-181 | every token is the non-empty slice of the stripped text at its recorded offset, tokens are in text order without overlap, and none is whitespace or a comment |
| Lexer.NumberTokenMaximal | src/scripts/dice_roller.py:152 | a token starting with a digit is the whole run of digits |
| Lexer.Tokenizer.constructor | src/scripts/dice_roller.py:164-168 | the tokenizer holds the stripped text, its tokens, and a cursor at 0 |
| Lexer.Tokenizer.Tokenize | src/scripts/dice_roller.py:170-181 | the loop appends exactly the scanned tokens |
| Lexer.Tokenizer.Append | src/scripts/dice_roller.py:173-181 | one match appends what its offset contributes and moves to where the scan resumes |
| Lexer.Tokenizer.Peek | src/scripts/dice_roller.py:183-188 | a token text exactly when one exists at `position + offset` |
| Lexer.Tokenizer.AtEnd | src/scripts/dice_roller.py:213-215 | at the end exactly when there is no token to peek |
| Lexer.Tokenizer.Consume | src/scripts/dice_roller.py:190-211 | returns `ConsumeResult` of the old cursor, and advances the cursor exactly when a token was there |
| Lexer.ConsumeResult | src/scripts/dice_roller.py:190-211 | past the end it is a parse error at the end of the text; otherwise it succeeds exactly when the token matches the expected text ignoring case, and fails with "Expected … but got …" at the token |
| Lexer.InvalidHasNoTokens | src/scripts/dice_roller.py:151-181 | `invalid` yields no token at all |
| Lexer.NoMatch | src/scripts/dice_roller.py:151-162 | a lower-case letter other than `d`, `k`, `r`, `s` is skipped |
| Lexer.FinalD | src/scripts/dice_roller.py:153 | a `d` at the very end gives no token |
| ParserSpec.Parse | src/scripts/dice_roller.py:221-240 | definition: `DiceParser(expression).parse()`, the parse of the tokens of the stripped text; `ParserSpec.ParseTop` states its errors and that a success uses every token, `Parser.DiceParser.Parse` is proved equal to it, and the `Expressions` lemmas compute it for the tests' expressions |
| ParserSpec.ParseCondition | src/scripts/dice_roller.py:429-446 | a condition consumes nothing only when it yields the default; errors are located parse errors; a numeric default stays numeric |
| ParserSpec.ReadModifier | src/scripts/dice_roller.py:372-425 | a recognised modifier moves the cursor forward; failures are located parse errors |
| ParserSpec.ConditionModifier | src/scripts/dice_roller.py:380-396 | `r`, `ro`, `!`, `!!`, `!p` move forward and never end the modifier loop |
| ParserSpec.NumberModifier | src/scripts/dice_roller.py:399-422 | keep/drop and comparators fail exactly when no number follows; only a comparator ends the modifier loop |
| ParserSpec.ModifierLoop | src/scripts/dice_roller.py:362-427 | the loop stays within the tokens and fails only with located parse errors |
| ParserSpec.DieSize | src/scripts/dice_roller.py:332-346 | `%` and `00` give 100 sides; `f` gives a 3-sided Fate die; digits give their value; anything else is "Invalid dice sides" at the die token |
| ParserSpec.SizeError | src/scripts/dice_roller.py:348-355 | no error exactly when `1 <= count <= MAX_DICE` and `1 <= sides <= MAX_SIDES`; a `LimitError` exactly when a maximum is exceeded |
| ParserSpec.ParseDice | src/scripts/dice_roller.py:316-360 | a dice term has a count and sides within the limits, 100 sides for `d%` and 3 for `dF` |
| ParserSpec.DieTerm | src/scripts/dice_roller.py:325-360 | the same, keeping the count already read |
| ParserSpec.ParsePrimary | src/scripts/dice_roller.py:294-314 | success consumes at least one token; errors are located |
| ParserSpec.ParseFactor | src/scripts/dice_roller.py:272-292 | success consumes at least one token; errors are located |
| ParserSpec.ParseTerm | src/scripts/dice_roller.py:257-270 | success consumes at least one token; errors are located |
| ParserSpec.TermTail | src/scripts/dice_roller.py:261-268 | the `*`/`/` loop never moves back; errors are located |
| ParserSpec.ParseExpr | src/scripts/dice_roller.py:242-255 | success consumes at least one token; errors are located |
| ParserSpec.ExprTail | src/scripts/dice_roller.py:246-253 | the `+`/`-` loop never moves back; errors are located |
| ParserSpec.ParseTop | src/scripts/dice_roller.py:225-240 | no tokens gives "Empty expression" at 0; an expression followed by a leftover token fails with "Unexpected token '<t>' after expression" at that token's offset; a success is an expression that takes up every token; every other parse error points at a token or the end of the stripped text |
| Parser.DiceParser.constructor | src/scripts/dice_roller.py:221-223 | a new tokenizer over the stripped text, and depth 0 |
| Parser.DiceParser.Parse | src/scripts/dice_roller.py:225-240 | returns `ParseTop` of the tokens |
| Parser.DiceParser.ParseExpression | src/scripts/dice_roller.py:242-255 | result and cursor are those of `ParseExpr`; the depth is restored on success |
| Parser.DiceParser.ParseTerm | src/scripts/dice_roller.py:257-270 | result and cursor are those of `ParseTerm`; the depth is restored on success |
| Parser.DiceParser.ParseFactor | src/scripts/dice_roller.py:272-292 | result and cursor are those of `ParseFactor`; the depth is restored on success |
| Parser.DiceParser.ParsePrimary | src/scripts/dice_roller.py:294-314 | result and cursor are those of `ParsePrimary` |
| Parser.DiceParser.ParseDice | src/scripts/dice_roller.py:316-323 | result and cursor are those of `ParseDice` |
| Parser.DiceParser.ParseDie | src/scripts/dice_roller.py:325-360 | result and cursor are those of `DieTerm` |
| Parser.DiceParser.ParseDiceModifiers | src/scripts/dice_roller.py:362-427 | result and cursor are those of `ModifierLoop` from no modifiers |
| Parser.DiceParser.ReadModifier | src/scripts/dice_roller.py:372-425 | one round of the modifier loop equals `ReadModifier`, and it consumes nothing when no modifier is there |
| Parser.DiceParser.ConditionModifier | src/scripts/dice_roller.py:380-396 | equals `ConditionModifier` |
| Parser.DiceParser.NumberModifier | src/scripts/dice_roller.py:399-422 | equals `NumberModifier` |
| Parser.DiceParser.ExpectNumber | src/scripts/dice_roller.py:401-405 | a number token is consumed and read; otherwise the error points at the token or the end |
| Parser.DiceParser.ParseCondition | src/scripts/dice_roller.py:429-446 | result and cursor are those of `ParseCondition` |
| ParserProps.ParseErrorWithinInput | src/scripts/dice_roller.py:225-240 | every parse error names the stripped input and an offset no greater than its length |
| ParserProps.InvalidIsEmpty | tests/test_errors.py:8-12 | `invalid` fails with "Empty expression" at 0 |
| ParserProps.DropHighAlone | src/scripts/dice_roller.py:302-346 | a lone `dh` is read as a die and fails with "Invalid dice sides 'h'" at 0 |
| ParserProps.TooDeep | src/scripts/dice_roller.py:281-284 | more open `(` than `MAX_RECURSION` allows is a `LimitError`, whatever follows |
| ParserProps.TooDeepExpression | src/scripts/dice_roller.py:281-284 | an expression opening 33 parentheses fails with "Exceeded maximum recursion depth of 32" |
| ParserProps.MulInside | src/scripts/dice_roller.py:257-270 | `a*b` and `a/b` group as one product inside an expression |
| ParserProps.AddInside | src/scripts/dice_roller.py:242-255 | `a+b` and `a-b` group as one sum inside an expression |
| ParserProps.Inside | src/scripts/dice_roller.py:242-270 | any single binary operator between two factors parses to that operator node |
| ParserProps.NumberFactor | src/scripts/dice_roller.py:308-310 | a number token not followed by a die is a number factor |
| ParserProps.NegationFactor | src/scripts/dice_roller.py:276-279 | `-` before a factor is its negation |
| ParserProps.ParenFactor | src/scripts/dice_roller.py:281-290 | a parenthesised expression is a factor, within the depth limit |
| ParserProps.FactorRoundTrip | src/scripts/dice_roller.py:272-292 | the tokens of an arithmetic expression (fully parenthesised) parse back to that expression |
| ParserProps.ParenRoundTrip | src/scripts/dice_roller.py:281-290 | a bracketed binary operation parses back to itself |
| ParserProps.ParenRight | src/scripts/dice_roller.py:281-290 | inside brackets the right operand completes the operation |
| ParserProps.ArithmeticRoundTrip | src/scripts/dice_roller.py:225-292 | a whole token sequence spelling an arithmetic expression within the nesting limit parses to exactly that expression |
| EvalSpec.DrawFace | src/scripts/dice_roller.py:506-510 | a valid die draws a face (`-1..1` for Fate); `d1` gives 1 without drawing; a failed draw does not move the cursor |
| EvalSpec.Meets | src/scripts/dice_roller.py:678-694 | definition: the five comparisons of `_check_condition`; `EvalProps.MeetsBySign` reads each one as the outcomes of comparing with the threshold that its symbol names, and `EvalProps.CountsComplement` proves that complementary comparators split any values |
| EvalSpec.FormatCondition | src/scripts/dice_roller.py:696-700 | definition: a bare number for `=`, the comparator and the number otherwise; `EvalProps.FormatConditionInjective` proves that different conditions print differently |
| EvalSpec.RerollDie | src/scripts/dice_roller.py:592-606 | definition: one die's reroll loop after `n` rerolls, while the value meets the condition and fewer than `MAX_REROLLS` were made; `Evaluator.DiceEvaluator.RerollOne` is proved equal to it, and `EvalProps.RerollHistory` and `EvalProps.RerollEnds` state its history and how it ends |
| EvalSpec.Redraw | src/scripts/dice_roller.py:594-603 | definition: one pass of that loop, which keeps the old value in `rerolls` and stops after one pass for `ro`; `EvalProps.RedrawHistory` and `EvalProps.RedrawEnds` |
| EvalSpec.RerollsDone | src/scripts/dice_roller.py:605-606 | definition: the check after the loop, a `LimitError` "Exceeded maximum rerolls of 10000" once `MAX_REROLLS` rerolls were made; `EvalProps.RerollEnds` proves that this is the loop's only error |
| EvalSpec.Resolve | src/scripts/dice_roller.py:613-618 | definition: the threshold `'max'` is 1 for Fate dice and the number of sides otherwise; `EvalProps.ExplodeMaxShown` shows the resolved value in the trace |
| EvalSpec.Penetrate | src/scripts/dice_roller.py:630-631 | definition: a penetrating explosion takes one off a positive increment; `EvalProps.PenetratedFace` and `EvalProps.ExplodeEnds` bound the increments it gives |
| EvalSpec.ExplodeDie | src/scripts/dice_roller.py:620-638 | definition: one die's explosion loop from its latest value, while it meets the condition and fewer than `MAX_EXPLOSIONS` happened, then the limit error; `Evaluator.DiceEvaluator.ExplodeOne` is proved equal to it, and `EvalProps.ExplodeHistory`, `EvalProps.ExplodeEnds` and `EvalProps.ExplodeFails` state its outcome |
| EvalSpec.Explosion | src/scripts/dice_roller.py:625-635 | definition: one pass, which draws an increment, records it and goes on from it; `EvalProps.ExplosionHistory`, `EvalProps.ExplosionEnds` and `EvalProps.ExplosionFails` |
| EvalSpec.Totals | src/scripts/dice_roller.py:645-651 | one total per die, its value plus its explosion increments; `EvalProps.KeepDropSelects` is stated over these totals |
| EvalSpec.SortDesc | src/scripts/dice_roller.py:656 | definition: `sorted(…, reverse=True)` by insertion; `EvalProps.SortDescSorted` proves it descending and a permutation of its input |
| EvalSpec.Select | src/scripts/dice_roller.py:658-665 | definition: the four slices, with Python's reading of `[-0:]` and `[:-0]`; `EvalProps.KeepDropSelects` proves that they keep the largest or the smallest values, and `EvalProps.ZeroCountSlices` covers a count of 0 |
| EvalSpec.KeepDrop | src/scripts/dice_roller.py:640-665 | definition: `_apply_keep_drop`, the "Cannot keep/drop" error or the slice of the sorted totals; `Evaluator.DiceEvaluator.ApplyKeepDrop` is proved equal to it, and `EvalProps.KeepDropFails` and `EvalProps.KeepDropSelects` state its error and what it keeps |
| EvalSpec.SortRolls | src/scripts/dice_roller.py:528-532 | definition: a stable insertion sort by value, ascending or descending; `EvalProps.SortRollsSorted` proves order and permutation, and `EvalProps.SortKeepsSum` that the sum is kept |
| EvalSpec.MarkSuccesses | src/scripts/dice_roller.py:671-674 | the success flag of each of the first `marked` dice, and no other die changed; `EvalProps.FlagsMatchCount` proves that without keep/drop the flags count the successes |
| EvalSpec.CountMeeting | src/scripts/dice_roller.py:676 | definition: how many values meet the comparison; `EvalProps.CountMeetingBound` and `EvalProps.CountsComplement` |
| EvalSpec.PlainSum | src/scripts/dice_roller.py:569-576 | definition: the dice values, plus the explosion increments for Fate dice only; `EvalProps.PlainSumIsDiceSum` proves it the die-by-die sum |
| EvalSpec.TermString | src/scripts/dice_roller.py:534-543 | definition: count and die, then the reroll, explosion and keep/drop texts in the order the parser lists them; `EvalProps.TermStringReadsBack` reads the count, the kind of die and the sides back from it, `EvalProps.TermStringInjective` follows, and `EvalProps.ShownMaxTerm` states where a resolved `'max'` condition appears |
| EvalSpec.Shown | src/scripts/dice_roller.py:613-618 | definition: the explosion condition after `'max'` was resolved in place, which is what the term string prints; `EvalProps.ShownMaxTerm` states the printed result for every die and modifier set |
| EvalSpec.RollAll | src/scripts/dice_roller.py:504-512 | definition: the first loop of `_eval_dice`, `count` fresh dice in the order drawn, stopping at the first error; `Evaluator.DiceEvaluator.RollAllDice` is proved equal to it, and `EvalProps.RollAllFresh` proves that a valid die gives `count` fresh faces |
| EvalSpec.Each | src/scripts/dice_roller.py:591-606 | definition: the `for roll in rolls` loops of `_apply_rerolls` and `_apply_explosions`, one step per die in order, threading the source and stopping at the first error; `Evaluator.DiceEvaluator.ApplyRerolls` and `ApplyExplosions` are proved equal to it, and `EvalProps.EachKeeps` relates each die to its own result |
| EvalSpec.Exploded | src/scripts/dice_roller.py:518-520 | definition: the explosion step of `_eval_dice` when an explosion modifier is present, with `'max'` resolved; `Evaluator.DiceEvaluator.RollDice` is proved equal to `Rolled`, which uses it, and `EvalProps.ExplodeTerm` states what it does to every die |
| EvalSpec.Rolled | src/scripts/dice_roller.py:503-520 | definition: roll every die, then reroll, then explode; `Evaluator.DiceEvaluator.RollDice` is proved equal to it, and `Scenarios.RolledCount` and `Scenarios.RolledIgnoresKeep` state what it draws |
| EvalSpec.Settle | src/scripts/dice_roller.py:522-584 | definition: keep/drop, then `Finish`; `Evaluator.DiceEvaluator.SettleDice` is proved equal to it, and `EvalProps.SettleCounts` states when it counts |
| EvalSpec.Finish | src/scripts/dice_roller.py:527-584 | definition: sort, build the term string, then count successes or sum, with the term's trace; `EvalProps.FinishCounts` and `EvalProps.FinishSums` |
| EvalSpec.DiceTerm | src/scripts/dice_roller.py:499-584 | definition: `_eval_dice`, `Rolled` then `Settle`; `Evaluator.DiceEvaluator.EvalDice` is proved equal to it, and `EvalProps.PlainTermRange` bounds a plain term |
| EvalSpec.Apply | src/scripts/dice_roller.py:477-486 | definition: the four operators, with exact true division and "Division by zero"; `EvalProps.DiceFreeEval` and `EvalProps.ValueFails` check it through the reference `Value` |
| EvalSpec.Negate | src/scripts/dice_roller.py:488-492 | definition: negation of the operand, an error passing through; `EvalProps.DiceFreeEval` |
| EvalSpec.Combine | src/scripts/dice_roller.py:472-486 | definition: an error of the right operand, otherwise the operator on both values; `EvalProps.DiceFreeEval` |
| EvalSpec.Eval | src/scripts/dice_roller.py:462-497 | definition: `_eval_node`, operands left to right, each dice term appending its trace; `Evaluator.DiceEvaluator.EvalNode` and `Evaluator.DiceEvaluator.Evaluate` are proved equal to it, and `EvalProps.EvalTraces`, `EvalProps.EvalCounts` and `EvalProps.DiceFreeEval` (against the independent `Value`) state its traces and values |
| EvalProps.MeetsBySign | src/scripts/dice_roller.py:678-694 | each comparator accepts exactly the outcomes of comparing with the threshold that its symbol names: `=` equal, `>` above, `>=` equal or above, `<` below, `<=` equal or below |
| EvalProps.CountsComplement | src/scripts/dice_roller.py:676-694 | `<` and `>=` count every value exactly once between them, so do `<=` and `>`, and `>=` counts what `>` and `=` count together |
| Evaluator.DiceEvaluator.constructor | src/scripts/dice_roller.py:452-454 | no traces, and the given source |
| Evaluator.DiceEvaluator.Evaluate | src/scripts/dice_roller.py:456-460 | the result, the traces and the cursor are those of `Eval` from no traces |
| Evaluator.DiceEvaluator.EvalNode | src/scripts/dice_roller.py:462-497 | result, traces and cursor are those of `Eval` from the old traces |
| Evaluator.DiceEvaluator.EvalBinary | src/scripts/dice_roller.py:472-486 | the same for a binary operation |
| Evaluator.DiceEvaluator.EvalUnary | src/scripts/dice_roller.py:488-492 | the same for a negation |
| Evaluator.DiceEvaluator.EvalDice | src/scripts/dice_roller.py:499-584 | on success one trace is appended and the term's value returned; on failure the traces are unchanged |
| Evaluator.DiceEvaluator.RollDice | src/scripts/dice_roller.py:503-520 | the dice after rolling, rerolling and exploding are `Rolled` of the old cursor |
| Evaluator.DiceEvaluator.SettleDice | src/scripts/dice_roller.py:522-584 | keep/drop, sort and count or sum equal `Settle` |
| Evaluator.DiceEvaluator.Face | src/scripts/dice_roller.py:506-510 | one die equals `DrawFace` of the old cursor |
| Evaluator.DiceEvaluator.RollAllDice | src/scripts/dice_roller.py:504-512 | the first loop equals `RollAll` of the old cursor |
| Evaluator.DiceEvaluator.ApplyRerolls | src/scripts/dice_roller.py:586-606 | the reroll loop over all dice equals `Each` with the reroll step |
| Evaluator.DiceEvaluator.RerollOne | src/scripts/dice_roller.py:592-606 | one die's reroll loop equals `RerollDie` from no rerolls |
| Evaluator.DiceEvaluator.ApplyExplosions | src/scripts/dice_roller.py:608-638 | `'max'` is resolved by `Resolve`, and the loop over all dice equals `Each` with the explosion step |
| Evaluator.DiceEvaluator.ExplodeOne | src/scripts/dice_roller.py:620-638 | one die's explosion loop equals `ExplodeDie` from its value |
| Evaluator.DiceEvaluator.ApplyKeepDrop | src/scripts/dice_roller.py:640-665 | equals `KeepDrop` |
| Evaluator.DiceEvaluator.CountSuccesses | src/scripts/dice_roller.py:667-676 | flags set on the first `len(values)` dice, and the count of kept values (or die values) meeting the comparator |
| EvalProps.SortDescSorted | src/scripts/dice_roller.py:656 | `sorted(…, reverse=True)` is descending and a permutation of its input |
| EvalProps.KeepDropFails | src/scripts/dice_roller.py:653-654 | keep/drop fails exactly when the count exceeds the dice, with a `SemanticError` |
| EvalProps.KeepDropSelects | src/scripts/dice_roller.py:656-665 | `kh`/`dl` keep the largest per-die totals and `kl`/`dh` the smallest, as many as the slice takes |
| EvalProps.SelectHigh | src/scripts/dice_roller.py:656-665 | the `kh`/`dl` slice of the totals sorted high to low holds the largest of them, as many as the kind keeps |
| EvalProps.SelectLow | src/scripts/dice_roller.py:656-665 | the `kl`/`dh` slice of the totals sorted high to low holds the smallest of them, as many as the kind keeps |
| EvalProps.DropHighIsKeepLow | src/scripts/dice_roller.py:661-663 | for `K < N`, `dhK` keeps the same list as `kl(N-K)` |
| EvalProps.DropLowIsKeepHigh | src/scripts/dice_roller.py:659-665 | for `0 < K <= N`, `dlK` keeps the same list as `kh(N-K)` |
| EvalProps.ZeroCountSlices | src/scripts/dice_roller.py:659-665 | `kl0` and `dh0` keep all totals sorted; `kh0` and `dl0` keep nothing |
| EvalProps.SortRollsSorted | src/scripts/dice_roller.py:528-532 | `rolls.sort` puts the dice in order of value (ascending or reversed) and is a permutation |
| EvalProps.SortKeepsSum | src/scripts/dice_roller.py:570-576 | sorting leaves the plain sum unchanged |
| EvalProps.CountMeetingBound | src/scripts/dice_roller.py:676 | the success count is at most the number of values, and equal exactly when every value meets the comparator |
| EvalProps.FlagsMatchCount | src/scripts/dice_roller.py:672-676 | without keep/drop, the flags set to true are as many as the successes counted |
| EvalProps.FormatConditionInjective | src/scripts/dice_roller.py:696-700 | different conditions print differently |
| EvalProps.RollAllFresh | src/scripts/dice_roller.py:504-512 | a valid die gives exactly `count` fresh dice (no history, no flag), each a face of the die |
| EvalProps.FreshStep | src/scripts/dice_roller.py:504-512 | one more draw of a valid die after `count - 1` fresh dice gives `count` fresh dice, the new one a face of the die |
| EvalProps.RerollHistory | src/scripts/dice_roller.py:591-604 | replaced values are appended to `rerolls` in order, starting with the original value, each meeting the condition; explosions and flags untouched; fewer than `MAX_REROLLS`; `ro` replaces at most once |
| EvalProps.RedrawHistory | src/scripts/dice_roller.py:593-603 | the same history for a die whose value meets the condition |
| EvalProps.RerollEnds | src/scripts/dice_roller.py:593-606 | `r` leaves a value not meeting the condition, the value stays a face of the die, and the only error is a `LimitError` |
| EvalProps.RedrawEnds | src/scripts/dice_roller.py:593-606 | the same for a die whose value meets the condition |
| EvalProps.ExplodeHistory | src/scripts/dice_roller.py:620-635 | the die's value never changes, increments are appended while the latest value meets the condition, the last one does not, fewer than `MAX_EXPLOSIONS` |
| EvalProps.ExplosionHistory | src/scripts/dice_roller.py:624-635 | the same once the latest value meets the condition |
| EvalProps.ExplodeFails | src/scripts/dice_roller.py:637-638 | with a valid die the only explosion error is a `LimitError` |
| EvalProps.ExplosionFails | src/scripts/dice_roller.py:624-638 | the same once the latest value meets the condition |
| EvalProps.ExplodeEnds | src/scripts/dice_roller.py:624-634 | with a valid die every increment is a face of the die, or when penetrating lies in `0..sides-1` (`-1..0` for Fate) |
| EvalProps.ExplosionEnds | src/scripts/dice_roller.py:624-634 | the same once the latest value meets the condition |
| EvalProps.EachKeeps | src/scripts/dice_roller.py:591 | a per-die loop keeps the number of dice and relates each die to its own result |
| EvalProps.RerollTerm | src/scripts/dice_roller.py:586-606 | after `r`, every die keeps its history and fails the condition |
| EvalProps.ExplodeTerm | src/scripts/dice_roller.py:608-638 | after explosions, every die keeps its value and has increments in range |
| EvalProps.OneSidedExplodesForever | src/scripts/dice_roller.py:624-638 | a `d1` whose face meets the condition fails with "Exceeded maximum explosions of 100" without drawing |
| EvalProps.SumAppend | src/scripts/dice_roller.py:562 | `sum` of a concatenation is the sum of the sums |
| EvalProps.PlainSumIsDiceSum | src/scripts/dice_roller.py:570-576 | the plain sum is the sum over dice of each die's value, plus its increments for Fate dice |
| EvalProps.SortKeepsDiceSum | src/scripts/dice_roller.py:528-532 | sorting leaves the per-die sum unchanged |
| EvalProps.FinishCounts | src/scripts/dice_roller.py:545-558 | with a comparator: the value is the success count, bounded by the kept values (or dice); the trace has the threshold `op value` and the count but no sum; without keep/drop the true flags equal the count |
| EvalProps.FinishSums | src/scripts/dice_roller.py:560-584 | without a comparator: the value is `sum(keptValues)`, or else the plain sum; the trace has the sum and kept values but no threshold; its dice are a permutation of the rolled dice |
| Grouping.TermTailFolds | src/scripts/dice_roller.py:257-270 | when `*`/`/` operators and factors follow a factor, the loop returns their left fold `((a op b) op c) …` and stops at the first token that is neither |
| Grouping.TermTailShape | src/scripts/dice_roller.py:257-270 | every success of the `*`/`/` loop is such a left fold of the factors it read |
| Grouping.ExprTailFolds | src/scripts/dice_roller.py:242-255 | when `+`/`-` operators and terms follow a term, the loop returns their left fold and stops at the first token that is neither |
| Grouping.ExprTailShape | src/scripts/dice_roller.py:242-255 | every success of the `+`/`-` loop is such a left fold of the terms it read |
| Grouping.LoneFactor | src/scripts/dice_roller.py:257-270 | a factor with no `*` or `/` after it is the whole term |
| Grouping.ProductInSum | src/scripts/dice_roller.py:242-270 | `a + b * c` (either additive and either multiplicative operator) parses as `a + (b * c)` |
| Grouping.ProductThenSum | src/scripts/dice_roller.py:242-270 | `a * b + c` parses as `(a * b) + c` |
| Grouping.SumsGroupLeft | src/scripts/dice_roller.py:242-255 | `a - b + c` and the other additive pairs parse as `(a op1 b) op2 c` |
| Grouping.ProductsGroupLeft | src/scripts/dice_roller.py:257-270 | `a / b * c` and the other multiplicative pairs parse as `(a op1 b) op2 c` |
| Expressions.ArithmeticTokens | src/scripts/dice_roller.py:151-181 | `2d1+3d1*2` tokenizes to `2`, `d1`, `+`, `3`, `d1`, `*`, `2` at offsets 0, 1, 3, 4, 5, 7, 8 |
| Expressions.ComparatorTokens | src/scripts/dice_roller.py:151-181 | `10d10>=7!` tokenizes to `10`, `d10`, `>=`, `7`, `!` at offsets 0, 2, 5, 7, 8 |
| Expressions.OneDieTokens | src/scripts/dice_roller.py:151-181 | `1d1` tokenizes to `1`, `d1` |
| Expressions.ModifiedDieTokens | src/scripts/dice_roller.py:151-181 | a one-digit count, `d` and one digit, a two-character modifier and one digit (`4d1dh1`, `4d1kl3`, `5d6>=1`) tokenize to four tokens: the count, the die, the modifier and the number |
| Expressions.ExplodeTokens | src/scripts/dice_roller.py:151-181 | `1d1!` tokenizes to `1`, `d1`, `!` |
| Expressions.DiceFactor | src/scripts/dice_roller.py:316-360 | a count within the limit, then a die `dS` of a decimal size within the limit, then the modifiers read after it, make one standard dice factor of that count and size |
| Expressions.NumberFactor | src/scripts/dice_roller.py:294-314 | a number that no die token follows is a number factor |
| Expressions.OperatorEndsModifiers | src/scripts/dice_roller.py:423-425 | an arithmetic operator is no modifier: the loop stops in front of it with the modifiers unchanged |
| Expressions.ComparatorEndsModifiers | src/scripts/dice_roller.py:414-422 | `>=` and a number set the comparator and end the modifier loop right after the number |
| Expressions.KeepModifier | src/scripts/dice_roller.py:399-407 | wherever it stands among the modifiers, a keep/drop token and its number set the keep of that kind and count, and the loop goes on after the number |
| Expressions.ExplodeModifier | src/scripts/dice_roller.py:387-396 | wherever it stands among the modifiers, `!`, `!!` or `!p` and the condition read after it set the explosion (compound for `!!`, penetrating for `!p`) on that condition, and the loop goes on after the condition |
| Expressions.WholeFactor | src/scripts/dice_roller.py:225-240 | a factor that takes up every token is the parse of the whole expression |
| Expressions.ArithmeticParse | tests/test_complex.py:8-11 | `2d1+3d1*2` parses as `2d1 + (3d1 * 2)`, not `(2d1 + 3d1) * 2` |
| Expressions.ComparatorThenExplode | src/scripts/dice_roller.py:225-240 | `10d10>=7!` fails with "Unexpected token '!' after expression" at offset 8, because the comparator ends the dice term |
| Expressions.OneDieParse | tests/test_parser.py:34-38 | `1d1` parses as one one-sided die without modifiers |
| Expressions.DropHighParse | tests/test_modifiers.py:60-65 | `4d1dh1` parses as four one-sided dice dropping the highest one |
| Expressions.KeepLowParse | tests/test_modifiers.py:60-65 | `4d1kl3` parses as four one-sided dice keeping the lowest three |
| Expressions.ExplodeParse | tests/test_errors.py:96-102 | `1d1!` parses as one one-sided die exploding on `>=` max, neither compounding nor penetrating |
| Expressions.CountParse | tests/test_success_counting.py:17-20 | `5d6>=1` parses as five six-sided dice counting faces `>= 1` |
| EvalProps.EvalTraces | src/scripts/dice_roller.py:462-497 | evaluation only appends traces, at most one per dice term, and exactly one per dice term on success |
| EvalProps.SettleCounts | src/scripts/dice_roller.py:545-584 | a settled term carries a success count exactly when it has a comparator |
| EvalProps.EvalCounts | src/scripts/dice_roller.py:742-744 | on success some new trace carries a success count exactly when some dice term has a comparator |
| EvalProps.ValueFails | src/scripts/dice_roller.py:483-485 | plain arithmetic fails only with `DiceError("Division by zero")` |
| EvalProps.DiceFreeEval | src/scripts/dice_roller.py:462-492 | on an expression without dice, evaluation is the arithmetic reference `Value`, draws nothing and adds no trace |
| EvalProps.FreshSumRange | src/scripts/dice_roller.py:570-576 | the sum of fresh dice lies between `N` times the lowest face and `N` times the highest |
| EvalProps.PlainTermRange | src/scripts/dice_roller.py:499-584 | `NdS` without modifiers succeeds with a sum in `N..N*S` (`-N..N` for Fate), and the trace records that sum |
| EvalProps.ExplodeMaxShown | src/scripts/dice_roller.py:614-618 | the trace term of `3d6!` is `3d6!>=6`, showing the resolved threshold |
| EvalProps.TermStringReadsBack | src/scripts/dice_roller.py:534-535 | for every count, die and modifier set, the term string's leading digits are the count, `d` follows, then the sides' digits for a standard die, `%` for percentile dice and `F` for Fate dice |
| EvalProps.TermStringInjective | src/scripts/dice_roller.py:534-543 | two dice terms with the same term string have the same count and kind of die, and standard dice the same sides |
| EvalProps.ShownMaxTerm | src/scripts/dice_roller.py:540-541 | for every term with a `'max'` explosion, the shown string is the unresolved one with the resolved condition (the sides, or 1 for Fate dice) inserted after the explosion marks and before the keep/drop text |
| EvalProps.ShownExplodeText | src/scripts/dice_roller.py:613-618 | resolving `'max'` appends the resolved condition to the explosion text |
| Roller.ResultTypeOf | src/scripts/dice_roller.py:742-744 | definition: `success_count` when some trace has a success count, `sum` otherwise; `Roller.RollType` proves this is exactly when some dice term of the expression has a comparator |
| Roller.FinalOf | src/scripts/dice_roller.py:749 | definition: `int(result)` for a whole value, the value otherwise; `Roller.FinalKeepsValue` proves that it keeps the value |
| Roller.Succeeded | src/scripts/dice_roller.py:741-761 | definition: the success record with `final`, `type`, the traces, the rng fields `CSPRNG`/`rejectionSampling`, the limits and the version; it is always a success, and `Roller.FinalKeepsValue` and `Roller.RollType` state its `final` and `type` |
| Roller.Failed | src/scripts/dice_roller.py:763-792 | the error record of each `except` clause is a failure; `Roller.FailedKeepsMessage` states its type, message, position and input |
| Roller.Respond | src/scripts/dice_roller.py:732-792 | definition: `roll_dice`, parse then evaluate, and the response or error record; `Roller.RollDice` is proved equal to it, and `Roller.RollType`, `Roller.RollArithmetic` and the `Scenarios` lemmas state its responses |
| Roller.FinalKeepsValue | src/scripts/dice_roller.py:749 | `final` stands for the computed value, and is an integer exactly when the value is whole |
| Roller.FailedKeepsMessage | src/scripts/dice_roller.py:763-792 | the error record has a position exactly for parse errors, the stripped input for them and the original expression otherwise, and ends with the error's message; only unexpected errors become `RuntimeError` |
| Roller.RollDice | src/scripts/dice_roller.py:703-792 | the response and the cursor are those of `Respond` on the old cursor |
| Roller.RollType | src/scripts/dice_roller.py:742-744 | a success reports `success_count` exactly when some dice term has a comparator, with one trace per dice term |
| Roller.RollArithmetic | src/scripts/dice_roller.py:732-761 | an expression without dice draws nothing, has no trace, is a sum equal to `Value`, and fails only as "DiceError" "Division by zero" |
| Scenarios.OneSidedSum | tests/test_parser.py:34-38 | the tree `Nd1` evaluates to `N` |
| Scenarios.RollsOneSided | tests/test_parser.py:34-38 | `roll_dice("1d1")` succeeds with final 1, whatever the entropy holds |
| Scenarios.ArithmeticValue | tests/test_parser.py:64-67 | the tree `2d1 + (3d1 * 2)` evaluates to 8 |
| Scenarios.OneSidedArithmetic | tests/test_complex.py:8-11 | `roll_dice("2d1+3d1*2")` succeeds with final 8, the product read first |
| Scenarios.RolledCount | src/scripts/dice_roller.py:503-520 | rolling, rerolling and exploding a valid die keep `count` dice |
| Scenarios.RolledIgnoresKeep | src/scripts/dice_roller.py:503-520 | the dice drawn do not depend on keep/drop, sort or comparator |
| Scenarios.SettleDropHighKeepLow | src/scripts/dice_roller.py:659-663 | on the same dice, `dhK` and `kl(N-K)` give the same value |
| Scenarios.DropHighMatchesKeepLow | src/scripts/dice_roller.py:640-665 | `NdSdhK` and `NdSkl(N-K)` draw the same dice and give the same value |
| Scenarios.KeepLowOfOnes | src/scripts/dice_roller.py:656-661 | `klK` of dice that all come to 1 sums to `K` |
| Scenarios.FourOneSidedKeepThree | tests/test_modifiers.py:60-65 | the trees of `4d1dh1` and `4d1kl3` both evaluate to 3 |
| Scenarios.RollsKeepThree | tests/test_modifiers.py:60-65 | `roll_dice("4d1dh1")` and `roll_dice("4d1kl3")` both succeed with final 3 |
| Scenarios.OneSidedExplodes | tests/test_errors.py:96-102 | the tree of `1d1!` fails with "Exceeded maximum explosions of 100" |
| Scenarios.RollsExplosionLimit | tests/test_errors.py:96-102 | `roll_dice("1d1!")` is the error record of type `LimitError`, message "Exceeded maximum explosions of 100", no position, input `1d1!` |
| Scenarios.EveryFaceSucceeds | tests/test_success_counting.py:17-20 | `NdS>=1` on a non-Fate die counts `N` successes |
| Scenarios.AllSucceedValue | tests/test_success_counting.py:17-20 | the tree of `5d6>=1` evaluates to 5 with one trace reporting 5 successes |
| Scenarios.RollsAllSucceed | tests/test_success_counting.py:17-20 | `roll_dice("5d6>=1")` succeeds with final 5 and type `success_count` |
| Scenarios.RollsLeftoverExplosion | src/scripts/dice_roller.py:232-238 | `roll_dice("10d10>=7!")` is the `ParseError` record "Unexpected token '!' after expression" at position 8, and draws nothing |

## Left out

- Entropy: `secrets.token_bytes` and `secrets.randbelow` are not modelled inside. They are
  fixed oracles (`pool`, `below`) read through cursors. The range of the fallback is
  assumed as part of its type.
- Floating point: true division is exact `real` arithmetic. IEEE rounding, overflow to
  infinity and `int()` of huge or non-finite floats are not modelled. In particular, an
  `int / int` whose operands are too large for a float raises `OverflowError` in the
  source, which `roll_dice` turns into a `RuntimeError` record
  (src/scripts/dice_roller.py:784-792), while the model answers a success with the exact
  quotient.
- Text: the pattern engine is re-implemented for ASCII and Latin-1. Unicode digits in
  `\d` and `isdigit`, Unicode whitespace beyond Latin-1, and case folding beyond ASCII are
  not modelled.
- Python's own recursion limit is not modelled. Two inputs can reach it:
  - a long chain of unary `-`, which the parser follows by recursion without a depth check;
  - a long chain of `+`, `-`, `*` or `/`, which parses without recursion into a left-deep
    tree that `_eval_node` then walks one recursive call per operator.

  Either can raise `RecursionError`, which surfaces as a `RuntimeError` response. The
  model parses and evaluates any chain.
- `to_dict` rendering, JSON output, `main` and the unused `MAX_EVAL_TIME_MS` are not part of
  this model. The traces are kept as values with `Option` fields.
- Mutation in place is modelled on values:
  - `DieRoll` objects are values, and the `rolls` list is a local sequence reassigned
    element by element. This is sound because no die is shared.
  - `rolls.sort` in place is the function `SortRolls`, applied in `SettleDice`.
  - The in-place rewrite of the `'max'` explosion condition is `Shown`, applied when the
    term string is built.
- Unreachable error branches are left out because the closed datatypes rule them out:
  - the `ValueError` for a non-tuple or unknown AST node;
  - the `return False` after the comparator cases;
  - the implicit `None` of `_apply_keep_drop`.
- The negative-number branch of `parse_primary` (`src/scripts/dice_roller.py:308`) is left
  out, because no token starts with `-` followed by digits.
- EvalProps.SortRollsSorted: proves order and permutation, but not that equal values keep
  their relative order (Python's sort is stable, and `SortRolls` is too).
- EvalProps.RerollEnds: states that the only error is a `LimitError`, not its message
  "Exceeded maximum rerolls of 10000", to keep the proof small.
- EvalProps.RedrawEnds: the same weakening as `RerollEnds`.
- EvalProps.ExplodeFails: states that the only error is a `LimitError`, not its message
  "Exceeded maximum explosions of 100". `OneSidedExplodesForever` proves the exact message
  for `d1`.
- EvalProps.ExplosionFails: the same weakening as `ExplodeFails`.
