# rn-dynamic-formik: helpers and provider state, in Dafny

This project models the two pieces of logic in the `rn-dynamic-formik` form
module that are self-contained and sequential:

- **The helpers** of `src/module/helper.js`. `isEmpty` decides whether a form
  value counts as empty. `nextItem` and `previousItem` step through an array:
  `nextItem` wraps from the last element to the first, and `previousItem`
  yields `undefined` before the first.
- **The provider state** of `src/module/DynamicFormProvider.js`. The provider
  keeps one map of saved form values per storage key and one map of schemas
  per schema key. It publishes two callbacks, `setFormValues` and
  `updateSchema`, and a template table that merges the user's templates over
  the four built-ins.

JavaScript values are the datatype `JsValues.JsValue`:
`Undefined | Null | Bool | Num(int) | Str | Arr(seq) | Obj(map)`.
`JsValues` also defines the parts of JavaScript semantics the code depends
on:

- `typeof`;
- `Object.keys(...).length`, which throws on `undefined` and `null`, and is 0
  for a boxed number or boolean;
- the truncating `%`, whose remainder takes the sign of the dividend and which
  gives NaN for `% 0`;
- indexing an array by a number that may be NaN or out of range;
- `JSON.parse(JSON.stringify(...))`.

A thrown error is `Result.Failure` with the thrown message.

Each provider method is a pure function from one `State` to the next. A
sequence of calls is `Run`. The lemmas about `Run` show the "last write wins,
nothing else changes" behaviour over any number of calls.

Modules: `Wrappers` (Option/Result), `JsValues`, `Helper`
(`src/module/helper.js`), `DynamicFormProvider`
(`src/module/DynamicFormProvider.js`).

`updateSchema` deep-copies the schemas already stored. It then binds the new
schema under its key exactly as it was passed, without copying it
(`src/module/DynamicFormProvider.js:33-34`).

## Model

| member | source | states |
|---|---|---|
| JsValues.OwnKeyCount | src/module/helper.js:8 | `Object.keys` throws exactly on `undefined`/`null`. It finds no keys on a number or boolean. An array has as many keys as elements. An object has none exactly when it is `{}`. |
| JsValues.JsRemainder | src/module/helper.js:16-17 | JavaScript `%` by a length: NaN exactly when the length is 0. Otherwise the result is below the length in magnitude, congruent to the dividend, and has the dividend's sign when non-zero. |
| JsValues.ElementAt | src/module/helper.js:18 | `arr[i]` reads the element at an in-range index. It reads `undefined` for NaN, a negative index, or an index at or past the length. |
| JsValues.JsonCopy | src/module/DynamicFormProvider.js:33 | The JSON round trip leaves `null`, booleans, numbers and strings alone. An array keeps its length; each element becomes its own copy, and an `undefined` element becomes `null`. An object keeps exactly the properties whose value is not `undefined`, each bound to the copy of its value. |
| JsValues.JsonCopyIsJson | src/module/DynamicFormProvider.js:33 | The JSON round trip always yields data with no `undefined` inside. |
| JsValues.JsonCopyIdentity | src/module/DynamicFormProvider.js:33 | On JSON data the round trip returns the value unchanged, at every depth. |
| JsValues.JsonCopyIdempotent | src/module/DynamicFormProvider.js:33 | Copying an already-copied value changes nothing. |
| Helper.TrimStart | src/module/helper.js:10 | The leading-trim result is a suffix of the input. Everything dropped is whitespace. The result is empty or starts with non-whitespace. |
| Helper.TrimEnd | src/module/helper.js:10 | The trailing-trim result is a prefix of the input. Everything dropped is whitespace. The result is empty or ends with non-whitespace. |
| Helper.TrimEmptyIff | src/module/helper.js:10 | `s.trim() === ''` holds exactly when every character of `s` is whitespace. |
| Helper.IsEmpty | src/module/helper.js:5-12 | `undefined`, `null`, every number and every boolean are empty. A string is empty iff it is all whitespace. An array is empty iff its length is 0. An object is empty iff it has no keys. |
| Helper.NextItem | src/module/helper.js:14-19 | Throws on a non-array. An empty array gives `undefined`. For `current + 1 >= 0` it returns the element at `(current + 1)` modulo the length, so the last element wraps to the first. For a negative `current + 1` it returns the first element when that is a multiple of the length, else `undefined`. |
| Helper.PreviousItem | src/module/helper.js:21-29 | Throws on a non-array. Gives `undefined` at 0. Returns `arr[current - 1]` for `1 <= current <= length`. Gives `undefined` for any other position. |
| Helper.StepNeighbours | src/module/helper.js:14-29 | Inside an array, `nextItem(arr, c)` is `arr[c+1]`, `previousItem(arr, c+1)` is `arr[c]`, and `nextItem(arr, c) == previousItem(arr, c+2)`. `nextItem` from the last index is the first element. |
| DynamicFormProvider.Init | src/module/DynamicFormProvider.js:16-22 | The initial state has no saved form values, and its schemas are exactly the `schemas` prop. |
| DynamicFormProvider.SetFormValues | src/module/DynamicFormProvider.js:24-29 | After the call the storage key maps to the given values. Every other key keeps its value, and the schemas are untouched. |
| DynamicFormProvider.UpdateSchema | src/module/DynamicFormProvider.js:31-36 | After the call the key maps to the schema as given. Every other stored schema is replaced by its JSON copy. A schema stored as `undefined` disappears. The form values are untouched. |
| DynamicFormProvider.UpdateSchemaFrame | src/module/DynamicFormProvider.js:31-36 | When the stored schemas are JSON data, every key other than the updated one keeps exactly its old schema, and the state stays JSON data. |
| DynamicFormProvider.MergeTemplates | src/module/DynamicFormProvider.js:54-60 | The table holds `TextInput`, `DatePicker`, `CheckBox` and `RadioGroup` unless the user overrides them. Every user key maps to the user's entry. No other key appears. An absent `templates` prop adds nothing. |
| DynamicFormProvider.RenderAfterAction | src/module/DynamicFormProvider.js:45-64 | When the stored schemas are JSON data, one callback changes the published context only under its own key: the stored values or schema appear there, and every other key is as before. The template table never changes. |
| DynamicFormProvider.RunFormValues | src/module/DynamicFormProvider.js:24-29 | After any sequence of calls, a storage key holds the values of its last `setFormValues`, or its earlier value. `updateSchema` calls never affect form values. |
| DynamicFormProvider.RunSchemas | src/module/DynamicFormProvider.js:31-36 | After any sequence of calls on JSON schemas, a schema key holds the schema of its last `updateSchema`, or its earlier one. The state stays JSON data, and `setFormValues` never affects schemas. |

## Left out

- The schema traversal, validation, visibility, wizard-step and submission engine. None of it exists in this code: `src/module/QDynamicForm.js:18-24` renders a placeholder.
- React rendering, the context object, the consumer HOC and the example app (`withDynamicForm.js`, `DynamicFormContext.js`, `App.js`, `SimpleForm.js`). The JSX of `render` is reduced to the context value it builds (`Render`).
- React's asynchronous `setState` batching. Each callback is modelled as an immediate state transition, so stale reads between rapid calls are not modelled.
- The empty `Masking` stub in `helper.js` and the `console.log` in `QDynamicForm.js`.
- Numbers are integers. NaN, infinities, fractions, `-0` as a stored value and precision loss above 2^53 are not modelled, and `current` is an integer.
- JsValue has no functions, symbols, bigints, sparse arrays or extra array properties, and object property order is not modelled. So `typeof` never yields "function", and the JSON round trip is not modelled for functions or cycles.
- DynamicFormProvider.Init: the `schemas` prop is always an object here. If the prop is absent, JavaScript stores `undefined`, and a later `updateSchema` throws in `JSON.parse`. That path is not modelled.
- Helper.IsWhitespace lists the Unicode space separators of current Unicode versions. A JavaScript engine built on another Unicode version may differ.
- The published context's callbacks (`setFormValues`, `updateSchema`) are modelled as the `Action` transitions and are not stored in `Context`.
- DynamicFormProvider.SetFormValues: keys are modelled as own data properties. In JavaScript, assigning to the key `"__proto__"` of a plain object calls the prototype setter instead of creating a property, so that key does not get the stored value. This key is not modelled.
- DynamicFormProvider.UpdateSchema: the key `"__proto__"` is not modelled either, for the same reason.
- The provider stores `values` and `currentSchema` by reference. If a caller later mutates that object in place, JavaScript changes the stored state too; for schemas this lasts until the next `updateSchema` deep-copies them. The model's state is immutable, so aliasing through mutation is not modelled.
- JsValues.OwnKeyCount: for a string it counts characters, not UTF-16 code units. `isEmpty` never reaches this case, because it handles strings separately.
