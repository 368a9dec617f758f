# Calculadora de IMC — a Dafny model of the BMI evaluator

The application is a one-screen React Native form (`calculo-imc/App.js`).
The user types a weight in kilograms and a height in metres. "Calcular IMC"
(`calcularIMC`) then does four things:

- it replaces the first comma of each text by a period and parses it with `parseFloat`;
- it rejects a weight or height that is NaN or zero, and a height that is not positive;
- otherwise it computes `peso / (altura * altura)` and shows it with two decimals;
- it picks one of the six adult bands of the World Health Organization table, each with a Portuguese label and a fixed colour.

"Limpar" (`limparCampos`) puts all six pieces of screen state back to their
initial values.

The model has five modules:

- `Wrappers` (wrappers.dfy): `Option`. `None` stands for NaN and for `null`.
- `Decimal` (decimal.dfy): the first-comma normalisation, a parser for the numeric-keyboard subset of `parseFloat`, and `toFixed(2)` read back as a number.
- `Classification` (classification.dfy): the bands, the `if / else if` chain, the threshold table it is checked against, and the labels and colours.
- `Calculator` (calculator.dfy): the guard and the division (`Decide`, `Evaluate`), the screen state as a value (`Screen`, `AfterCalculate`), and the class `App`. `App` holds the six `useState` fields. Its methods `Calculate` and `Clear` assign them in the order the source does.
- `Scenarios` (scenarios.dfy): worked inputs, from typed text to what the screen shows, and a client session on `App`.

Numbers are Dafny `real`s, so every division and comparison is exact.

## Model

| member | source | states |
|---|---|---|
| Decimal.Normalize | calculo-imc/App.js:13-14 | The length is unchanged, and a text without a comma comes back unchanged. |
| Decimal.NormalizeFirstComma | calculo-imc/App.js:13-14 | Only the first comma becomes a period; everything after it, later commas included, is untouched. |
| Decimal.CommaOrPeriodNormalizeAlike | calculo-imc/App.js:13-14 | "70,5" and "70.5" normalise to the same text, for any comma-free parts on either side. |
| Decimal.NormalizeReplacesAllOfOneComma | calculo-imc/App.js:13-14 | With at most one comma, the first-comma replacement equals replacing every comma. |
| Decimal.ParseUnsigned | calculo-imc/App.js:13-14 | A parse without sign is never negative, and it is NaN exactly when the text starts neither with a digit nor with a period followed by a digit. |
| Decimal.ParseFloat | calculo-imc/App.js:13-14 | A negative result needs a leading '-'. The result is NaN exactly when what follows an optional sign starts neither with a digit nor with a period followed by a digit, so "", ".", "-." and "abc" are all NaN. |
| Decimal.ParseFloatSign | calculo-imc/App.js:13-14 | A leading '-' negates the parsed value (NaN stays NaN); a leading '+' changes nothing. |
| Decimal.ParseWhole | calculo-imc/App.js:13-14 | A digit string followed by text that continues no number parses to its whole value; trailing text is ignored. |
| Decimal.ParseDecimal | calculo-imc/App.js:13-14 | `whole.fraction` followed by a non-digit parses to its exact decimal value, with either part allowed to be empty but not both. |
| Decimal.ParseNormalizeAsReplaceCommas | calculo-imc/App.js:13-14 | Parsing after the first-comma replacement gives the same number (or NaN) as parsing after replacing every comma. |
| Decimal.Cents | calculo-imc/App.js:26 | The count of hundredths is within half a hundredth of the value, and a tie goes to the count of larger magnitude. |
| Decimal.ToFixed2 | calculo-imc/App.js:26 | The displayed value is a whole number of hundredths within 0.005 of the BMI; at an exact half it is the neighbour farther from zero, as `toFixed` rounds. |
| Classification.Classify | calculo-imc/App.js:29-47 | The chosen band's half-open interval contains the BMI. |
| Classification.ClassifyExactlyOne | calculo-imc/App.js:29-47 | A BMI lies in a band's interval exactly when the chain picks that band, so the bands cover every real and never overlap. |
| Classification.BoundaryGoesUp | calculo-imc/App.js:29-47 | Each boundary 18.5, 25, 30, 35, 40 belongs to the band it opens. |
| Classification.ClassifyCountsThresholds | calculo-imc/App.js:29-47 | The band's position equals the number of thresholds the BMI has reached. |
| Classification.ClassifyMonotone | calculo-imc/App.js:29-47 | A larger BMI never gets an earlier band. |
| Classification.Label | calculo-imc/App.js:30-45 | Every band has a non-empty label, so a shown classification is never the empty initial text. |
| Classification.Color | calculo-imc/App.js:31-46 | Every band's colour is '#' followed by six upper-case hexadecimal digits. |
| Classification.BandOfLabel | calculo-imc/App.js:30-45 | A label is read back to exactly the band that has it, so no two bands share a label. |
| Classification.ColorsDistinct | calculo-imc/App.js:31-46 | Two bands have the same colour only if they are the same band. |
| Calculator.Bmi | calculo-imc/App.js:25 | The BMI multiplied by the squared height gives back the weight. |
| Calculator.Decide | calculo-imc/App.js:16-25 | The guard tests truthiness with `Falsy` (NaN or zero). Input is accepted exactly when the weight is a number other than 0 and the height is a number greater than 0, and an accepted BMI times the squared height is the weight. |
| Calculator.DecideIsBmi | calculo-imc/App.js:25 | An accepted BMI times the squared height gives back the weight, and it is negative exactly when the weight is. |
| Calculator.Evaluate | calculo-imc/App.js:13-25 | An empty weight or height is rejected, and an accepted input had a weight that parses to a non-zero number and a height that parses to a positive one. |
| Calculator.EvaluateAsReplacingEveryComma | calculo-imc/App.js:13-16 | Replacing only the first comma gives the same outcome as replacing every comma, for both inputs. |
| Calculator.CommaOrPeriodEvaluateAlike | calculo-imc/App.js:13-16 | A decimal comma and a decimal period give the same outcome, in weight and height alike. |
| Calculator.NegativeWeightIsUnderweight | calculo-imc/App.js:16-31 | A negative weight with a positive height is accepted; its BMI is negative and it is classified 'Abaixo do Peso'. |
| Calculator.AfterCalculate | calculo-imc/App.js:12-48 | The inputs stay as they were, and the new screen is consistent: a result never shows with a message, and a label always shows in its own band's colour. |
| Calculator.CalculateTwiceIsOnce | calculo-imc/App.js:12-48 | Calculating twice shows the same as calculating once. |
| Calculator.LabelAndColorTogether | calculo-imc/App.js:29-47 | On a consistent screen that shows a label, the label is a band's exactly when the colour is that band's. |
| Calculator.App.constructor | calculo-imc/App.js:5-10 | The six fields start as '', '', null, '', '', '', and that state is consistent. |
| Calculator.App.Calculate | calculo-imc/App.js:12-48 | The new state is AfterCalculate of the old. On rejection: the fixed message, `imc` null, label and colour empty. On success: message empty, `imc` the rounded BMI, label and colour from the unrounded BMI. Weight and height texts are unchanged. |
| Calculator.App.Clear | calculo-imc/App.js:50-57 | Every field is back to its initial value, whatever the state was, so clearing twice is clearing once. |
| Scenarios.NormalWeightExample | calculo-imc/App.js:12-48 | 70 kg at 1.75 m is accepted, shown as 22.86 and classified 'Peso Normal'. |
| Scenarios.CommaHeightExample | calculo-imc/App.js:13-14 | A height of "1,75" evaluates like "1.75". |
| Scenarios.ZeroWeightRejected | calculo-imc/App.js:16-21 | A weight of "0" is rejected. |
| Scenarios.ZeroHeightRejected | calculo-imc/App.js:16-21 | A height of "0" is rejected. |
| Scenarios.NonNumericWeightRejected | calculo-imc/App.js:13-21 | A weight of "abc" parses to NaN and is rejected. |
| Scenarios.LoneCommaRejected | calculo-imc/App.js:13-21 | A weight typed as a lone "," becomes ".", which parses to NaN, so the input is rejected. |
| Scenarios.SecondCommaIgnored | calculo-imc/App.js:13-14 | "1,7,5" normalises to "1.7,5" and parses to 1.7. |
| Scenarios.NegativeWeightExample | calculo-imc/App.js:16-31 | "-70" kg at 1.75 m is accepted and classified 'Abaixo do Peso'. |
| Scenarios.RoundedDisplayCrossesBoundary | calculo-imc/App.js:24-35 | 99.98 kg at 2 m shows 25.00, the first Sobrepeso value, next to 'Peso Normal': the band uses the unrounded 24.995. |
| Scenarios.EmptyInputsRejected | calculo-imc/App.js:13-21 | Calculating on the initial screen, with both fields empty, only sets the error message. |

## Left out

- The JSX tree, the `StyleSheet` constants, the `TextInput`/`TouchableOpacity` wiring and the conditional rendering at calculo-imc/App.js:59-166. They are presentation only. Typing into a field (`onChangeText={setPeso}`) is modelled as a plain assignment to the public field `peso` or `altura`.
- React's batching and re-rendering of `useState` setters. The setters are sequential field assignments.
- Decimal.ParseFloat: models only an optional sign, digits and at most one period, read as the longest such prefix. Leading whitespace, exponents ("1e2"), "Infinity" and the -0/+0 distinction are not modelled. NaN is `None`.
- Decimal.ToFixed2: rounds the exact real BMI to the nearest hundredth, with ties away from zero as `toFixed` does for a magnitude. IEEE-754 double rounding of the division and of the decimal inputs is not modelled. `imc` holds the rounded number, not the string `toFixed(2)` produces (nor its exponent form at 1e21 and above).
- Both comparisons and the division are exact on reals, so a BMI that lands next to a band boundary in floating point may be classified differently by the real program. Inputs outside the range of doubles can also decide the guard differently: a height such as "0." followed by 400 zeros and a "1" underflows to 0 in `parseFloat` and is rejected, where the model reads a small positive height and accepts it; a weight of 400 digits becomes `Infinity`, which the model reads as a finite number.
- The guard accepts any non-zero weight, negative included (`NegativeWeightIsUnderweight`). Only the first comma is replaced, and `ParseNormalizeAsReplaceCommas` shows this never changes the parsed number.
