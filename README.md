# getInputWidth — a verified Dafny model

cupboard-calc is a small browser front-end. It searches a nutrition database and formats the values it shows. Its one piece of self-contained logic is `getInputWidth` in `src/utils.js`. It sizes an input field to its content. It returns the CSS declaration `width:calc(<count>ch + 3rem)`. The count is 1 when the value is `undefined` or the empty string. Otherwise the count is the length of the value's string form.

The model has two modules:

- `Decimal` (`decimal.dfy`) renders a natural number as base-10 digits, the way a template literal interpolates a non-negative integer below 2^53 (every safe integer). `DecimalValue` reads digits back. Lemmas prove that each direction inverts the other on canonical digit strings: no sign, no leading zeros, and `"0"` only for zero.
- `Utils` (`utils.dfy`) models `getInputWidth` as `GetInputWidth`. A value is `Option<JsString>`. `None` stands for `undefined`. `JsString` is a sequence of UTF-16 code units (`bv16`), so `|s|` is JavaScript's `.length`. `WidthCount` is the count. `ParseInputWidth` reads the count back out of a width declaration. The lemmas show that `ParseInputWidth` inverts `GetInputWidth`, and they characterize the outputs `GetInputWidth` can return. The output is a Dafny `string`. It is pure ASCII, so its characters and its UTF-16 code units coincide.

## Model

| member | source | states |
|---|---|---|
| Decimal.NatToDecimal | src/utils.js:6-8 | the interpolated count is a non-empty string of ASCII digits with no leading zero; it starts with '0' only for zero |
| Decimal.DecimalValueOfNatToDecimal | src/utils.js:6-8 | reading the interpolated digits back gives the count itself |
| Decimal.NatToDecimalOfDecimalValue | src/utils.js:6-8 | every canonical digit string is the rendering of the number it denotes, so the rendering is the only plain base-10 spelling |
| Decimal.NatToDecimalInjective | src/utils.js:6-8 | two counts render the same exactly when they are equal |
| Utils.WidthCount | src/utils.js:7 | the count is at least 1; for a string it is at least the string's length in UTF-16 code units; it is either 1 or that length |
| Utils.GetInputWidth | src/utils.js:5-9 | the output starts with "width:calc(", ends with "ch + 3rem)", and holds between them only the canonical decimal digits of the count |
| Utils.ParseInputWidth | src/utils.js:6-8 | whenever it reads a count n from a string, that string is exactly "width:calc(" + digits of n + "ch + 3rem)" |
| Utils.ParseGetInputWidth | src/utils.js:5-9 | reading back any output of getInputWidth gives exactly its count |
| Utils.GetInputWidthRange | src/utils.js:5-9 | the outputs of getInputWidth are exactly the width declarations whose count is at least 1 |
| Utils.UndefinedWidth | src/utils.js:7 | `undefined` yields exactly "width:calc(1ch + 3rem)" |
| Utils.EmptyStringWidth | src/utils.js:7 | the empty string yields the same output as `undefined` |
| Utils.NonEmptyWidth | src/utils.js:7 | a non-empty string yields the count equal to its length in UTF-16 code units |
| Utils.WidthAtLeastOne | src/utils.js:7 | every output reads back to a count of at least 1, so the width never drops below 1ch + 3rem |
| Utils.SameWidthIffSameCount | src/utils.js:5-9 | two inputs yield the same output if and only if their counts are equal |
| Utils.SameWidthIffSameLength | src/utils.js:7 | two non-empty strings yield the same output if and only if they have the same length |
| Utils.LongerIsWider | src/utils.js:7 | a longer string never gets a smaller count, and a strictly larger one when the shorter string is non-empty |

## Left out

- `formatNum` (src/utils.js:1-3) is not modelled. It rounds with `Number.prototype.toFixed`, re-parses with `parseFloat` and groups digits with `toLocaleString`. That behaviour depends on floating-point arithmetic and on the runtime's locale.
- `GetInputWidth` accepts only `undefined` or a string. In the source, a number or object goes through `toString()`, which for numbers is floating-point rendering. `null` is not checked for and makes `val.toString()` throw. An object whose string form is empty, such as `[]` or `new String('')`, is not `=== ''`, so it gets count 0 and the declaration "width:calc(0ch + 3rem)"; the lower bound of 1ch + 3rem stated by `Utils.WidthAtLeastOne` holds only for `undefined` and strings. None of these inputs is modelled.
- `Decimal.NatToDecimal` does not bound its argument, and `WidthCount` does not bound `|s|`. From 2^53 upward JavaScript prints the shortest digits that read back to the same double, padded with zeros (2^64 prints as "18446744073709552000"), and from 10^21 upward it switches to exponent notation ("1e+21"). Counts are string lengths, which JavaScript keeps at most 2^53-1, so for every count `getInputWidth` interpolates, JavaScript prints exactly the digits `NatToDecimal` gives.
- Determinism has no lemma of its own. `GetInputWidth` is a Dafny function, so equal inputs give equal outputs by construction, and there is no hidden state.
- `searchFood` and `getFoodDetails` in src/api.js are not modelled. They are asynchronous `fetch` calls to a remote REST service. Their only local decisions, the whitespace guard and the empty-list default, are thin glue over network I/O and JavaScript built-ins.
- rollup.config.js is not modelled. It is bundler and dev-server configuration, including the spawning of a child `npm` process.
- The `./api-key` module, `src/main.js` and the Svelte components are not part of this model.
