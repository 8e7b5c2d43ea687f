# Scientific calculator core, modelled in Dafny

This project models the core of a desktop scientific calculator, a React/Electron application. The core has two parts:

- `types/calculatorTypes.ts` holds the operations. It defines the closed set of operator tags and the classifiers that sort them into unary, binary, memory and constant operators. It defines `calculate`, which evaluates one operator on a number with an optional second operand, memory slot and angle mode, and turns every thrown error into a `NaN` result with a message. It also defines `formatResult`, which turns the result into display text, with `"Error"` for NaN and infinities.
- `hooks/useCalculator.ts` holds the calculator state and its updaters. The state has the display, the equation line, the pending operator and first operand, the memory slot, the angle mode, the error and the second-function mode. The updaters are `handleNumber`, `handleDecimalPoint`, `toggleSecondMode`, `handleOperator` (C, DEL, 2nd, memory keys, unary keys with their second-mode bindings, binary keys, constants and "="), `calculateResult`, `setAngleMode`, `clearMemory` and `clearError`.

How the model is laid out:

- `js_runtime.dfy` (module `JsRuntime`): JavaScript numbers, `Num = Finite(real) | NaN | Infinity(sign)`, with IEEE special-value arithmetic. It also has `parseFloat` on plain decimal literals and `Number::toString` on integers below 10^21. Whatever the calculator takes from the host without seeing its code is bundled in a `Platform` value: the `Math` functions, `Math.PI`, `Math.E`, `toPrecision(10)`, the decimal rendering of non-integers and of integers from 10^21 (`Number::toString`) and parsing of other text.
- `calculator_types.dfy` (module `CalculatorTypes`): the operator tags, the classifiers, memory, `Calculate`, and `FormatResult`.
- `use_calculator.dfy` (module `UseCalculator`): the state record, one pure updater per handler, and the events the UI sends. `Reduce` applies one event and `ReduceAll` a sequence of them. `Valid` is the state invariant. The updaters carry the two corrections listed under "## Findings": they format with the corrected `FormatResult`, and they keep a binary operator's first operand as text. The code as written is modelled beside them (`FormatResultAsWritten`, `StoredOperandAsWritten`, `EqualsProceedsAsWritten`).
- `calculator_hook.dfy` (module `CalculatorHook`): the hook as an object. A `Calculator` has one mutable `state` field, and each handler method replaces it with its updater's result while keeping `Valid`.
- `calculate_properties.dfy`, `format_properties.dfy`, `reducer_properties.dfy` and `scenarios.dfy` hold what is proved: per-operator outcomes and error domains, the formatting round trip, what each key does to the state, the state invariant, and worked key sequences.

Some of the behaviour the model keeps, exactly as the code has it:

- "=" on a zero divisor shows "Error" only through the NaN result, and leaves `error` unset. `calculateResult` does set it.
- "=" with nothing pending returns the state unchanged, including second mode.
- "m+" on the "Error" display stores NaN in memory.
- `calculateResult`'s failure path keeps the pending operator and `isNewNumber`.

## Model

| member | source | states |
|---|---|---|
| JsRuntime.DigitChar | types/calculatorTypes.ts:89 | the character for a digit value is a digit and reads back as that value |
| JsRuntime.NatToDigits | types/calculatorTypes.ts:89 | the decimal numeral of a natural is non-empty, all digits, and has no leading zero |
| JsRuntime.DotIndex | hooks/useCalculator.ts:113 | the index found is the first '.' of the text, or its length when there is none |
| JsRuntime.DigitsValueOfNatToDigits | types/calculatorTypes.ts:89 | reading back the numeral of n gives n |
| JsRuntime.NoDotIndex | hooks/useCalculator.ts:113 | a digit string has no '.' |
| JsRuntime.IntToStringRoundTrip | hooks/useCalculator.ts:232-239 | `String(i)` of an integer is a plain literal, and parseFloat of it gives i back |
| JsRuntime.NumberToStringRoundTrip | hooks/useCalculator.ts:262-266 | for an integer below 10^21 in magnitude, parseFloat(String(r)) == r |
| CalculatorTypes.Calculate | types/calculatorTypes.ts:99-245 | every failure gives a NaN result and no memory update |
| CalculatorTypes.TrailingZeros | types/calculatorTypes.ts:90 | the count is the exact length of the final run of '0' |
| CalculateProperties.ClassifiersPartition | types/calculatorTypes.ts:50-79 | the four classifiers are pairwise disjoint, and together with "=", C, DEL and 2nd they cover every tag |
| CalculateProperties.CalculateFailsExactly | types/calculatorTypes.ts:106-244 | `calculate` reports an error iff, in a separately written table, the operator fails on that input |
| CalculateProperties.DivisionByZeroFails | types/calculatorTypes.ts:115-117 | "/" fails exactly when the second operand is 0; "1/x" fails exactly on 0, both with "Division by zero" |
| CalculateProperties.SqrtDomain | types/calculatorTypes.ts:177-180 | sqrt fails iff its argument is below 0; NaN goes through to the host |
| CalculateProperties.InverseTrigDomain | types/calculatorTypes.ts:142-166 | arcsin and arccos fail iff the argument is outside [-1, 1], each with its own message, and otherwise convert to degrees in degree mode |
| CalculateProperties.MemoryClearResets | types/calculatorTypes.ts:202-206 | "mc" returns its value and a fresh memory slot |
| CalculateProperties.MemoryRecallReads | types/calculatorTypes.ts:207-210 | "mr" returns the stored value exactly when the slot has one, otherwise the input |
| CalculateProperties.MemoryAccumulates | types/calculatorTypes.ts:211-234 | "m+", "m-" and "ms" add to, subtract from or replace the stored value (0 when absent), mark it set, and return the input |
| CalculateProperties.MemoryArithmeticOnFinite | types/calculatorTypes.ts:211-234 | on finite numbers the memory becomes m + x, m - x or x |
| CalculateProperties.MemoryReturnedExactly | types/calculatorTypes.ts:202-234 | a new memory is returned iff the operator is mc, m+, m- or ms |
| CalculateProperties.SecondOperandDefaults | types/calculatorTypes.ts:109-119 | a missing second operand defaults to 0 for + and -, 1 for * and /, and 2 for ^ |
| CalculateProperties.BinaryArithmetic | types/calculatorTypes.ts:109-119 | with a second operand, the binary operators apply JavaScript +, -, *, / (zero excepted) and Math.pow |
| CalculateProperties.AngleModeDefaultsToDegrees | types/calculatorTypes.ts:104 | a missing angle mode behaves as degrees |
| CalculateProperties.UnknownOperatorExactly | types/calculatorTypes.ts:236-237 | "Unknown operator" is reported iff the tag is "=", C, DEL or 2nd |
| CalculateProperties.FailureShowsMarker | types/calculatorTypes.ts:239-244 | a failed calculation formats as "Error" |
| FormatProperties.StripZerosAsWrittenTruncatesExponent | types/calculatorTypes.ts:90 | the regex as written turns "1e-10" into "1e-1" |
| FormatProperties.FormatResultAsWrittenMisrendersTinyNumber | types/calculatorTypes.ts:81-91 | as written, 10^-10 is displayed "1e-1"; the corrected version displays "1e-10" |
| FormatProperties.DotIndexOfPrefix | types/calculatorTypes.ts:90 | cutting text after its first '.' keeps that '.' first |
| FormatProperties.DotInLiteral | types/calculatorTypes.ts:90 | a '.' in a plain literal separates its integer digits from its fraction |
| FormatProperties.FractionDropZero | types/calculatorTypes.ts:90 | a final fraction digit '0' adds nothing to the value |
| FormatProperties.UnsignedDropLast | types/calculatorTypes.ts:90 | dropping the last character of a signed literal drops it from its digits and keeps its sign |
| FormatProperties.DigitsDropZero | types/calculatorTypes.ts:90 | in the digits of a fraction literal, dropping a final '0' keeps the '.', the integer digits and the fraction's value |
| FormatProperties.DropFractionZero | types/calculatorTypes.ts:90 | dropping a final fraction '0' keeps a plain literal with a '.' and keeps its value |
| FormatProperties.DropFinalDot | types/calculatorTypes.ts:90 | dropping a final '.' keeps a plain literal and its value |
| FormatProperties.StripBeforeZero | types/calculatorTypes.ts:90 | with two final zeros, the clean-up of the text equals the clean-up of the text minus one zero |
| FormatProperties.StripBeforeDot | types/calculatorTypes.ts:90 | text ending ".0" loses both characters |
| FormatProperties.StripBeforeDigit | types/calculatorTypes.ts:90 | a final '0' after any character other than '0' and '.' goes alone |
| FormatProperties.StripFractionZerosKeepsValue | types/calculatorTypes.ts:88-90 | the corrected clean-up maps a plain literal to a plain literal of the same value |
| FormatProperties.StripFractionZerosShape | types/calculatorTypes.ts:88-90 | the corrected clean-up only shortens, and leaves text that is not a plain fraction untouched |
| FormatProperties.PlainLiteralIsNotMarker | types/calculatorTypes.ts:82-83 | a plain literal is never empty and never "Error" |
| FormatProperties.ParseErrorMarker | hooks/useCalculator.ts:113 | parseFloat of the "Error" display is NaN |
| FormatProperties.FormatResultMarksNonFinite | types/calculatorTypes.ts:81-91 | the display text is never empty, and it is "Error" iff the number is NaN or infinite |
| FormatProperties.FormatResultAgreesAwayFromExponents | types/calculatorTypes.ts:88-90 | the corrected and the as-written versions agree unless the rendering has trailing zeros and is not a plain fraction |
| FormatProperties.FormatParseFormat | hooks/useCalculator.ts:113 | formatting, reading the display back with parseFloat and formatting again gives the same text |
| ReducerProperties.NumberPressedOutcome | hooks/useCalculator.ts:40-69 | a digit key clears an error and the equation, starts a new number after a result, replaces a lone "0", else appends; nothing else changes |
| ReducerProperties.OperatorDispatch | hooks/useCalculator.ts:110-284 | each operator key reaches exactly one branch: 2nd, C, DEL, memory, unary, binary, constant or "=" |
| ReducerProperties.ReduceAllSnoc | hooks/useCalculator.ts:40-360 | a run ending in one more event is that event applied after the run |
| ReducerProperties.DigitEvents | hooks/useCalculator.ts:40 | one key event per digit |
| ReducerProperties.WithoutLeadingZeros | hooks/useCalculator.ts:63 | the normalised digit string is non-empty and has no redundant leading '0' |
| ReducerProperties.WithoutLeadingZerosSnoc | hooks/useCalculator.ts:63 | normalising after appending a digit is one key step on the normalised prefix |
| ReducerProperties.TypingDigits | hooks/useCalculator.ts:40-69 | typing any digit string after a result or an error shows it without leading zeros, and keeps the pending operator, operand, memory and mode |
| ReducerProperties.NoDotsWithoutDot | hooks/useCalculator.ts:91 | text without '.' has zero dots |
| ReducerProperties.DotsOfAppend | hooks/useCalculator.ts:94 | the dots of a concatenation add up |
| ReducerProperties.DecimalPressedOutcome | hooks/useCalculator.ts:71-100 | the decimal point starts "0." after an error or a result, is appended when absent, and is otherwise ignored |
| ReducerProperties.DotsOfShortStrings | hooks/useCalculator.ts:76-94 | "0." and "." have one dot, "0" none |
| ReducerProperties.DigitKeepsDots | hooks/useCalculator.ts:40-69 | a digit key never adds a '.' |
| ReducerProperties.DecimalKeepsOneDot | hooks/useCalculator.ts:71-100 | the decimal point never makes a second '.', and starting afresh gives exactly one |
| ReducerProperties.DeleteKeepsDots | hooks/useCalculator.ts:137-149 | DEL never adds a '.' |
| ReducerProperties.EditingKeepsOneDot | hooks/useCalculator.ts:40-149 | digit keys, the decimal point and DEL keep the display to at most one '.' |
| ReducerProperties.ClearKeepsMemoryAndAngle | hooks/useCalculator.ts:124-135 | C returns the initial state except that memory and angle mode stay |
| ReducerProperties.DeleteOutcome | hooks/useCalculator.ts:137-149 | DEL shows "0" on a fresh number or a single character, and otherwise drops the last character |
| ReducerProperties.DeleteOnFreshZero | hooks/useCalculator.ts:137-144 | DEL on the fresh "0" changes nothing |
| ReducerProperties.ToggleFlipsOnlySecondMode | hooks/useCalculator.ts:103-121 | the 2nd key and the "2nd" operator flip second mode and nothing else; two presses cancel out |
| ReducerProperties.SecondBindingTable | hooks/useCalculator.ts:171-190 | second mode maps sin, cos, tan, sqrt and x² to arcsin, arccos, arctan, cbrt and x³, keeps every other tag, and keeps unary operators unary |
| ReducerProperties.UnaryOutcome | hooks/useCalculator.ts:170-227 | a unary key applies the second-mode operator; on failure it shows "Error" with a math error and "op(x) = Error"; on success the formatted result and "op(x) = result"; either way pending work and second mode end |
| ReducerProperties.BinaryOutcome | hooks/useCalculator.ts:230-243 | a binary key makes the operator pending with the display (after a result) or its parsed number as first operand, and leaves everything else |
| ReducerProperties.RepeatedBinaryOverwrites | hooks/useCalculator.ts:230-243 | a second binary key replaces the first operator and keeps the first operand's text; its value is kept wherever the host's `String` of the parsed display reads back as that value, which always holds for integers below 10^21 and after a result |
| ReducerProperties.BinaryLeavesPending | hooks/useCalculator.ts:232-239 | after a binary key, "=" has something to evaluate |
| ReducerProperties.ToStringNonEmpty | hooks/useCalculator.ts:234-239 | `String(n)` is never empty |
| ReducerProperties.EqualsWithoutPending | hooks/useCalculator.ts:257-260 | "=" with no pending operator or operand returns the state unchanged |
| ReducerProperties.EqualsEvaluates | hooks/useCalculator.ts:257-282 | "=" evaluates the pending operator on the stored operand and the display, shows the result, completes the equation, and clears pending work and second mode |
| ReducerProperties.EqualsDivisionByZero | hooks/useCalculator.ts:262-273 | "=" on a zero divisor shows "Error" and leaves `error` as it was |
| ReducerProperties.CalculateResultOutcome | hooks/useCalculator.ts:306-348 | calculateResult does nothing without pending work; on failure it shows "Error", clears the equation, sets a math error and keeps the pending operator; on success it acts like "=" and takes any new memory |
| ReducerProperties.CalculateResultDivisionByZero | hooks/useCalculator.ts:321-346 | calculateResult on a zero divisor sets the "Division by zero" math error |
| ReducerProperties.MemoryOutcome | hooks/useCalculator.ts:152-167 | a memory key shows the formatted result, starts a new number, and takes the returned memory or keeps the old one |
| ReducerProperties.MemoryAddOnErrorStoresNaN | hooks/useCalculator.ts:152-167 | "m+" on the "Error" display stores NaN in memory |
| ReducerProperties.ConstantOutcome | hooks/useCalculator.ts:246-254 | pi and e show their constant, start a new number and end second mode; the equation stays |
| ReducerProperties.SecondModeIsSingleUse | hooks/useCalculator.ts:170-282 | second mode ends after a unary, binary or constant key and after an evaluating "="; memory keys, DEL and an idle "=" keep it |
| ReducerProperties.SettersChangeOneField | hooks/useCalculator.ts:356-360 | setAngleMode, clearMemory and clearError each change their one field |
| ReducerProperties.HandleOperatorPreservesValid | hooks/useCalculator.ts:110-284 | every operator key keeps the invariant |
| ReducerProperties.CalculateResultPreservesValid | hooks/useCalculator.ts:306-348 | calculateResult keeps the invariant on success and on failure |
| ReducerProperties.ReducePreservesValid | hooks/useCalculator.ts:40-360 | every event keeps the invariant: non-empty display, operator pending iff operand stored, pending operator binary |
| ReducerProperties.ReduceAllPreservesValid | hooks/useCalculator.ts:40-360 | the invariant holds along any run of events |
| ReducerProperties.ValidPendingExactly | hooks/useCalculator.ts:257-260 | under the invariant, "=" has something to evaluate exactly when an operator is pending, and that operator is binary |
| ReducerProperties.InitialStateValid | hooks/useCalculator.ts:28-38 | the initial state satisfies the invariant, with empty memory in degree mode |
| CalculatorHook.Calculator.constructor | hooks/useCalculator.ts:28-38 | a new calculator starts in the initial state, which is valid |
| CalculatorHook.Calculator.HandleNumber | hooks/useCalculator.ts:40-69 | the state becomes handleNumber of the old state, and stays valid |
| CalculatorHook.Calculator.HandleDecimalPoint | hooks/useCalculator.ts:71-100 | the state becomes handleDecimalPoint of the old state, and stays valid |
| CalculatorHook.Calculator.ToggleSecondMode | hooks/useCalculator.ts:103-108 | only second mode flips |
| CalculatorHook.Calculator.HandleOperator | hooks/useCalculator.ts:110-304 | the state becomes handleOperator of the old state, and stays valid |
| CalculatorHook.Calculator.CalculateResult | hooks/useCalculator.ts:306-348 | the state becomes calculateResult of the old state, and stays valid |
| CalculatorHook.Calculator.SetAngleMode | hooks/useCalculator.ts:356-357 | only the angle mode changes |
| CalculatorHook.Calculator.ClearMemory | hooks/useCalculator.ts:358-359 | only memory changes, to a fresh slot |
| CalculatorHook.Calculator.ClearError | hooks/useCalculator.ts:360 | only the error is cleared |
| Scenarios.SmallIntegerText | hooks/useCalculator.ts:113 | a one-digit display reads back as its number and formats as itself |
| Scenarios.FirstDigit | hooks/useCalculator.ts:53-60 | a digit on a fresh calculator replaces the "0" |
| Scenarios.LeadingZeroCollapses | hooks/useCalculator.ts:63 | typing 0 then 5 shows "5" |
| Scenarios.TwoDigitCalculation | hooks/useCalculator.ts:40-69 | typing `a op b` leaves op pending with a as operand and b on the display |
| Scenarios.TwoDigitResult | hooks/useCalculator.ts:257-282 | `a op b =` shows the formatted result of calculate and the equation "a op b = result" |
| Scenarios.DivideFiveByZero | hooks/useCalculator.ts:257-348 | 5 / 0 shows "Error"; only calculateResult records the division-by-zero error |
| Scenarios.ThreeTimesTwo | hooks/useCalculator.ts:230-282 | 3 * 2 = shows "6" with equation "3 * 2 = 6" |
| Scenarios.OperatorReplacesOperator | hooks/useCalculator.ts:230-243 | 2 + * makes "*" pending with first operand 2 |
| Scenarios.SquareRootOfNine | hooks/useCalculator.ts:170-227 | 9 sqrt shows "3" with equation "sqrt(9) = 3" |
| Scenarios.NinetyTyped | hooks/useCalculator.ts:40-69 | typing 9 then 0 shows "90" |
| Scenarios.NinetyText | hooks/useCalculator.ts:113 | the display "90" reads back as 90 |
| Scenarios.UnaryShows | hooks/useCalculator.ts:170-227 | outside second mode, a unary key whose calculation succeeds shows the formatted result |
| Scenarios.UnaryFails | hooks/useCalculator.ts:170-214 | a unary key whose calculation fails shows "Error", records the message as a math error and ends second mode |
| Scenarios.SineOfNinety | types/calculatorTypes.ts:122-127 | sin on 90 takes the sine of pi/2 in degree mode and of 90 in radian mode |
| Scenarios.SineOfNinetyIsOne | hooks/useCalculator.ts:170-227 | in degree mode, sin on the display "90" shows "1", given that the host's sine of pi/2 is 1 |
| Scenarios.SecondModeSine | hooks/useCalculator.ts:170-214 | in second mode, sin on the display "2" applies arcsin, fails with the range message and leaves second mode |
| Scenarios.ZeroOperandBlocksEqualsAsWritten | hooks/useCalculator.ts:232-260 | as written, the operand stored after typing 0 is the number 0, and "=" then does nothing |
| Scenarios.ZeroOperandEvaluates | hooks/useCalculator.ts:232-282 | with the operand kept as text, 0 + 5 = shows "5" with equation "0 + 5 = 5" |

## Left out

- Floating point: numbers are exact reals, with NaN and signed infinities written out. Rounding, overflow to infinity and signed zero are not modelled.
- RepeatedBinaryOverwrites: the host's `Number::toString` is abstract for non-integers, so the value of a typed fraction is kept only where its rendering reads back as the same number; for integers below 10^21 and after a result it is proved for all inputs.
- The `Math` functions, `Math.PI`, `Math.E`, `toPrecision(10)`, the decimal rendering of non-integers and of integers from 10^21 (`Number::toString`) and parsing of text that is not a plain decimal literal come from the host. They are fields of `Platform`. Properties that need their behaviour take it as a requirement, as `SquareRootOfNine` does.
- FormatParseFormat: holds only where the host's `toPrecision(10)` is idempotent and its rendering of the rounded value reads back as that value, whether as a plain decimal literal or, through the host's parseFloat, in exponent form. The model does not implement IEEE rounding or exponent parsing, so it takes both as requirements.
- React plumbing (`useState`, `useCallback`, batching) is left out. Each handler is a pure state-to-state function. `calculateResult` reads `state` from its closure rather than `prev`, and the model takes both to be the latest state.
- The `catch` block of `handleOperator` is not modelled: nothing inside its `try` throws, because `calculate` folds its own errors into its result. `calculateResult` throws on every error `calculate` reports, and its `catch` turns that into the "Error" display with a math error; that path is modelled (`CalculateResult`, `CalculateResultOutcome`). Only that `catch`'s branch for errors that are not `Error` objects, which records a system error, is unreachable and left out.
- CalculatorHook.Calculator.HandleNumber: requires a non-empty key string. The UI only passes one-character keys, and the empty string would break the non-empty-display invariant.
- Reduce: formats every display with the corrected `FormatResult`, not `FormatResultAsWritten`. They differ exactly when the host renders the rounded result in exponent form ending in '0'. For example, with a host that renders 10^-10 as "1e-10", "1/x" on the display "10000000000" shows "1e-10" where the code shows "1e-1".
- Reduce: stores a binary operator's first operand as text (`OperandText`), where the code stores `parseFloat(display)` as a number after typing. They differ when that number is 0 or NaN. For example, "0 + 5 =" shows "5" in the model, while the code's `!prev.lastNumber` guard leaves the state unchanged.
- The UI components, the Electron shell and the unused `utils/CalculatorEngine .ts` are not part of this model.

## Findings

| source | as written | input that shows it | evidently intended | confidence | as-written member | corrected member |
|---|---|---|---|---|---|---|
| types/calculatorTypes.ts:90 | `/\.?0+$/` also strips zeros at the end of an exponent | 1e-10, rendered "1e-10", is displayed "1e-1" | strip only the trailing zeros of a plain decimal fraction | high; not executed | FormatProperties.FormatResultAsWrittenMisrendersTinyNumber | FormatProperties.StripFractionZerosKeepsValue |
| hooks/useCalculator.ts:232-258 | `numberToUse` is stored as a number after typing, so a first operand of 0 is falsy in the "=" guard | 0 + 5 = leaves the state unchanged | any stored operand, 0 included, is evaluated | high; not executed | Scenarios.ZeroOperandBlocksEqualsAsWritten | Scenarios.ZeroOperandEvaluates |
