# Calculator state machine

A model of the on-screen calculator component of `calculadora-next-js`. The
component keeps four fields: the `display` text, the pending left operand
`previousValue`, the pending operator `operation`, and the digit-entry flag
`waitingForOperand`. Five event handlers change them: digit entry, decimal
entry, clear, choose an operator, and evaluate (`=`). Each handler reads the
state of the current render and writes new field values. So each one is
modelled as a total function from `State<N>` to `State<N>`.

Numbers stay abstract. `N` is the platform number type. The datatype
`Arith<N>` carries the operations the component uses on it:

- `parse` is `Number.parseFloat`;
- `show` is `String(number)`;
- `add`, `sub`, `mul`, `div` are the four operators;
- `truthy` and `zero` give `previousValue || 0` its meaning.

None of the proofs depends on float behaviour.

Files and modules:

- `options.dfy` (`Options`): `Option`, standing for `null`-able fields.
- `display_text.dfy` (`DisplayText`): `indexOf` and the shape of a typed
  number. It also defines `Typed`, the display after a run of digits typed
  onto `"0"`.
- `arithmetic.dfy` (`Arithmetic`): the abstract number operations, `x || 0`,
  and `calculate`.
- `calculator.dfy` (`Calculator`): the state record and the five handlers.
- `keypad.dfy` (`Keypad`): the button grid as a key dispatch (`Step`) and
  runs of key presses (`Run`).
- `handler_properties.dfy` (`HandlerProperties`): properties of single
  handlers and of short handler sequences.
- `keypad_properties.dfy` (`KeypadProperties`): digit runs, the invariant of
  every reachable state, and worked examples.

Facts about the code that the model keeps:

- `previousValue` is set exactly when `operation` is. Both fields are
  written in the same handler, so no rendered state shows one without the
  other; `KeypadProperties.Reachable` proves this over every key sequence.
- `performOperation` folds `previousValue || 0`
  (components/calculator.tsx:48), but `=` folds `previousValue` without
  coercion (components/calculator.tsx:82). The model keeps this asymmetry
  (`Arithmetic.Coerce`).
- A pending operator is tested by JavaScript truthiness
  (components/calculator.tsx:47 and 81; `Calculator.Truthy`): it is truthy
  when it is set and not the empty string, so an empty operator string
  counts as no operation.
- After `=`, or after an operator that folds a pending operation
  (components/calculator.tsx:51 and 83), the display is `String(result)`,
  which can be `"NaN"` or `"Infinity"`. After the first operator the display
  keeps the typed text, with the flag set (components/calculator.tsx:45-46).
  The model proves the display is a typed number (digits, at most one `'.'`)
  whenever a number is being typed.

## Model

| member | source | states |
|---|---|---|
| `Calculator.Initial` | components/calculator.tsx:8-11 | the mount state shows `"0"`, has no pending operand or operator, is not waiting, and its display is a well-formed typed number |
| `Calculator.InputNumber` | components/calculator.tsx:14-21 | after an operator the digit replaces the display; otherwise a lone `"0"` is replaced and any other display is appended to; the flag is cleared and the pending operand and operator are unchanged |
| `Calculator.InputDecimal` | components/calculator.tsx:24-31 | after an operator the display becomes `"0."`; otherwise a point is appended only if the display has none, and an existing point makes the whole state unchanged; a second point is never added |
| `Calculator.Clear` | components/calculator.tsx:34-39 | every state is mapped to the mount state |
| `Calculator.PerformOperation` | components/calculator.tsx:42-57 | always ends waiting, with the new operator pending; with no pending operand it captures the parsed display and leaves the display alone; with a pending operand and a truthy operator (set and non-empty, line 47) it shows and keeps the folded value `calculate(Coerce(previousValue), parse(display), operation)`, where `Coerce(x)` is `x || 0`; with a falsy operator the operand and display stay |
| `Calculator.CalculateResult` | components/calculator.tsx:78-88 | with a pending operand and a truthy operator (set and non-empty, line 81) it shows `calculate(previousValue, parse(display), operation)`, forgets both and waits; otherwise the state is unchanged |
| `Arithmetic.Calculate` | components/calculator.tsx:60-75 | the four operator strings dispatch to the matching platform operation; `"="` and every other string give back the second operand |
| `Arithmetic.Recognise` | components/calculator.tsx:61-69 | a string names an arithmetic operator exactly when it is that operator's symbol; no other string names one |
| `Arithmetic.RecogniseSymbol` | components/calculator.tsx:61-69 | each operator's symbol is recognised as that operator |
| `DisplayText.IndexOf` | components/calculator.tsx:28 | `indexOf` returns -1 exactly when the character is absent; otherwise it returns the position of the first occurrence |
| `DisplayText.DropLeadingZeros` | components/calculator.tsx:19 | the result is the suffix of the digits left after a prefix of zeros, and it does not itself start with `'0'` |
| `DisplayText.Typed` | components/calculator.tsx:19 | the display after a digit run is `"0"` exactly when every digit typed was `'0'`; otherwise it is the suffix of the digits that starts at the first non-zero one: everything before it is `'0'` and it does not start with `'0'` |
| `HandlerProperties.InputNumberKeepsNumericText` | components/calculator.tsx:14-21 | one digit keeps the display a typed number: non-empty, digits and points only, at most one point |
| `HandlerProperties.InputDecimalKeepsNumericText` | components/calculator.tsx:24-31 | the decimal key keeps the display a typed number |
| `HandlerProperties.ClearKeepsNumericText` | components/calculator.tsx:34-39 | clear leaves a typed number on the display |
| `HandlerProperties.InputDecimalIdempotent` | components/calculator.tsx:24-31 | pressing the decimal key twice is the same as pressing it once |
| `HandlerProperties.InputDecimalNoOpIff` | components/calculator.tsx:25-30 | the decimal key leaves the state unchanged if and only if no operand is awaited and the display already has a point |
| `HandlerProperties.ClearForgets` | components/calculator.tsx:34-39 | clear gives the same state whatever the prior state, so it is idempotent |
| `HandlerProperties.CalculateResultNoOpIff` | components/calculator.tsx:81-87 | `=` leaves the state unchanged if and only if there is not both a pending operand and a truthy operator |
| `HandlerProperties.OperateThenEvaluate` | components/calculator.tsx:42-88 | with no operand pending, a non-empty operator followed straight by `=` shows `calculate(x, x, op)`, where `x` is the value that was displayed |
| `HandlerProperties.ChainLeftToRight` | components/calculator.tsx:42-88 | a second operator folds the pending operation first, and `=` then applies the second operator to that intermediate result: left to right, no precedence |
| `KeypadProperties.DigitRunAppends` | components/calculator.tsx:18-20 | with no operand awaited, digits typed onto a display other than `""` or `"0"` are appended, and nothing else changes |
| `KeypadProperties.DigitRunFromZero` | components/calculator.tsx:18-20 | with no operand awaited, digits typed onto `"0"` give their concatenation with the leading zeros dropped (or `"0"`), and nothing else changes |
| `KeypadProperties.DigitRunAfterOperator` | components/calculator.tsx:15-20 | right after an operator, a non-empty digit run shows exactly those digits without leading zeros, clears the flag and keeps the pending operand and operator |
| `KeypadProperties.DigitsFromStart` | components/calculator.tsx:8-21 | from the mount state, a digit run shows its concatenation without leading zeros |
| `KeypadProperties.RunAppend` | components/calculator.tsx:14-88 | pressing one key sequence and then another is running the second from where the first left off |
| `KeypadProperties.StepPreservesInvariant` | components/calculator.tsx:14-88 | every handler, on a key the grid can send, keeps the invariant: a typed number while typing, operand pending exactly when an operator is, and a pending operator is one of the four |
| `KeypadProperties.RunPreservesInvariant` | components/calculator.tsx:14-88 | any sequence of valid keys keeps the invariant |
| `KeypadProperties.Reachable` | components/calculator.tsx:8-88 | every state reachable from mount satisfies the invariant, and a pending operand always comes with a truthy operator |
| `Keypad.Step` | components/calculator.tsx:104-213 | each button press runs its handler: digit and decimal keys only edit the number being typed and clear the flag; an operator key leaves that operator pending with an operand and waits; clear remounts; `=` either changes nothing or leaves nothing pending |
| `KeypadProperties.ButtonsCoverKeys` | components/calculator.tsx:103-214 | the grid `Keypad.Buttons` has seventeen buttons: one per digit, one per arithmetic operator, the decimal point, clear and `=` |
| `KeypadProperties.ButtonsAreValid` | components/calculator.tsx:103-214 | every button of the grid sends a digit, the decimal key, clear, one of the four operators, or `=` |
| `KeypadProperties.NoOperatorNoPending` | components/calculator.tsx:78-88 | without an operator key no operand becomes pending, so `=` then changes nothing |
| `KeypadProperties.FivePlusThree` | components/calculator.tsx:42-88 | 5 + 3 = shows `String(5 + 3)` and leaves nothing pending |
| `KeypadProperties.OnePlusTwoTimesThree` | components/calculator.tsx:42-88 | 1 + 2 * 3 = shows `String((Coerce(1) + 2) * 3)`: no precedence |
| `KeypadProperties.SevenOverZero` | components/calculator.tsx:42-88 | 7 / 0 = shows `String(7 / 0)` and leaves nothing pending; there is no error state |

## Left out

- Rendering: the JSX, the `Button` and `Card` components, styling and layout (components/calculator.tsx:90-218). Only the mapping of buttons to handlers is kept, as `Keypad.Step` and `Keypad.Buttons`.
- React `useState`: setter batching and re-rendering are not modelled. Each handler is one atomic state-to-state function over the state of the render it was called in.
- IEEE-754 behaviour of `Number.parseFloat`, `String(number)` and the four operators: rounding, `NaN`, `Infinity` on division by zero, exponent notation. These are fields of `Arith<N>` that no proof constrains. The worked examples therefore state their result as, for example, `show(add(parse("5"), parse("3")))` rather than `"8"`.
- `previousValue || 0` is `Arithmetic.Coerce`, over an abstract `truthy` test. Which floats are falsy (0, -0, `NaN`) is not modelled.
- `HandlerProperties.InputNumberKeepsNumericText`: shown for a single digit only. `inputNumber` accepts any string, but the grid only ever sends one digit.
- `KeypadProperties.Reachable`: the display is shown to be a typed number only while a number is being typed. After `=`, or after an operator that folds a pending operation (components/calculator.tsx:51 and 83), it is `String(result)`, which is abstract here. After the first operator it keeps the typed text, with the flag set, and the invariant does not track it.
