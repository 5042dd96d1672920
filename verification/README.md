# Todo session-storage normalisation, modelled in Dafny

The application keeps its task records in browser session storage under one key.
The logic lives in `src/utils/sessionStorage.ts`:

- `normalizeTodo` takes an untrusted parsed value and returns a task record or `null`.
- A module-level flag, `hasLoggedMalformedWarning`, lets `normalizeTodo` print at most one
  development-mode diagnostic about a malformed `dueDate`.
- `loadTodos` normalises every element of the stored JSON array and drops the rejects.
- `saveTodos` renders every record with `createdAt` as an ISO string before writing.

This project models those pieces as pure Dafny functions and proves what they promise.

- `JsValue.Json` is the parsed JSON value (null, boolean, number, string, array, object as a
  finite map). `Truthy` is JavaScript truthiness over it. A property read returns an `Option`,
  where `None` stands for `undefined`.
- `JsDate.DateApi` carries the two platform functions the code calls: `new Date(s)` (its time
  value, or `None` for NaN) and `toISOString`. They are parameters, so every result holds
  for any platform behaviour.
- `Todos.Todo` is the record. Its `id`, `title` and `description` hold a `Json` value, not a
  string: the code checks those fields only for truthiness and copies them unchanged, so a
  truthy number passes as an `id`.
- `Normalizer.Normalize(api, v, warned, dev)` returns the record (or `None`), the flag after
  the call, and whether this call logged. The flag and `NODE_ENV === 'development'` (`dev`)
  are explicit inputs.
- `TodoStorage.LoadTodos` takes the stored text (`None` when the key is absent) and a
  `jsonParse` function (`None` when `JSON.parse` throws). `TodoStorage.SaveTodos` yields the
  stored shapes, and `StoredJson` gives the parsed value of the text `JSON.stringify` writes.

Facts about the code that the model keeps:

- The `Todo` interface (src/types/Todo.ts:2-4) declares `id`, `title` and `description` as
  strings. `normalizeTodo` checks `id` and `title` only for truthiness (sessionStorage.ts:15)
  and takes `description || ''` (sessionStorage.ts:54), so any truthy value is copied unchanged.
- The one-shot flag is set inside the same guard that requires development mode
  (sessionStorage.ts:37-39, :44-46). Outside development mode it stays false and nothing is logged.
- Whether an impossible day such as `2024-02-30` counts as a valid `dueDate` depends on
  `new Date`. The model leaves that to `DateApi.parse`.

## Model

| member | source | states |
|---|---|---|
| `Normalizer.Normalize` | src/utils/sessionStorage.ts:11-66 | A record is returned exactly when the input is an object (so never for null, booleans, numbers, strings or arrays) with truthy `id` and `title`, a boolean `completed` and a `createdAt` string that parses. On success `id`, `title` and `completed` are copied unchanged, `createdAt` is the parse of the string, and `description` is the input's value if truthy, else `""`. `dueDate` is kept exactly when it is a 4-2-2 digit string that parses, and is dropped otherwise. A set flag stays set, and a log is emitted exactly when the flag was clear, dev mode is on, the record was accepted and its `dueDate` is present, non-null and unusable. |
| `Normalizer.ResultIgnoresFlag` | src/utils/sessionStorage.ts:30-58 | The returned record does not depend on the flag or on development mode. |
| `Normalizer.DueDateNeverRejects` | src/utils/sessionStorage.ts:28-49 | Replacing, adding or removing `dueDate` never changes whether a record is returned, nor any field except `dueDate`. |
| `Normalizer.OtherPropertiesIgnored` | src/utils/sessionStorage.ts:14-58 | Properties other than the six read have no effect on the result, the flag or the log. |
| `TodoStorage.NormalizeEach` | src/utils/sessionStorage.ts:79-80 | Normalising a sequence element by element yields one result per element, each equal to that element's flag-independent verdict. At most one log is emitted in all. Exactly one is emitted when the flag was clear, dev mode is on and some element is an accepted record with a malformed `dueDate`; otherwise none. The flag ends set exactly when it was set or a log was emitted. |
| `TodoStorage.Compact` | src/utils/sessionStorage.ts:81 | The filter keeps no more elements than it is given. Every kept record was a non-null result, and every non-null result is kept. |
| `TodoStorage.CompactIsOrderedSelection` | src/utils/sessionStorage.ts:79-81 | The filtered sequence is the non-null results taken at strictly ascending positions of the input, covering every non-null position, so order is preserved. |
| `TodoStorage.CompactAppend` | src/utils/sessionStorage.ts:81 | Filtering distributes over concatenation. |
| `TodoStorage.LoadTodos` | src/utils/sessionStorage.ts:71-90 | An absent or empty stored text yields no records, no flag change and no log. Records are returned only when the text parses to an array. The load-error log is emitted exactly when dev mode is on and parsing the non-empty text fails. The flag is monotone, and a malformed-data log implies dev mode and sets the flag. When the text is absent or empty, fails to parse, or is not an array, the flag is unchanged and no malformed-data log is emitted. A malformed-data log is emitted exactly when the flag was clear, dev mode is on, and the text parses to an array holding an accepted record with a malformed `dueDate`. |
| `TodoStorage.LoadKeepsAcceptedInOrder` | src/utils/sessionStorage.ts:79-83 | The loaded records are exactly the non-null verdicts of the array's elements, in order, as an ordered selection. There are no more of them than elements. |
| `TodoStorage.LoadEach` | src/utils/sessionStorage.ts:6 | Across any number of successive loads that share the process-wide flag, at most one malformed-data log is emitted, and none once the flag is set. Exactly one is emitted when the flag starts clear, dev mode is on and some load's array holds an accepted record with a malformed `dueDate`. The flag ends set exactly when it started set or a log was emitted. |
| `TodoStorage.SaveTodos` | src/utils/sessionStorage.ts:98-101 | Saving keeps length and order. Each stored record equals its source record in every field except `createdAt`, which becomes the ISO rendering of the instant. |
| `TodoStorage.StoredRecordReloads` | src/utils/sessionStorage.ts:98-101 | Normalising the stored form of a record gives back that record exactly when it is `Reloadable`. A `Reloadable` record reloads without touching the flag or logging. |
| `TodoStorage.SaveThenNormalize` | src/utils/sessionStorage.ts:79-80 | Normalising the stored forms of `Reloadable` records gives every record back, in order, with no log and the flag unchanged. |
| `TodoStorage.SaveThenLoad` | src/utils/sessionStorage.ts:95-103 | If the written text parses back to the saved value, loading it returns the saved `Reloadable` records unchanged, with no log. |
| `TodoStorage.NormalizedIsReloadable` | src/utils/sessionStorage.ts:51-58 | Every record the normaliser returns is `Reloadable`, provided the platform's ISO rendering of its instant parses back to that instant. |
| `TodoStorage.LoadSaveLoad` | src/utils/sessionStorage.ts:71-103 | Saving the records a load returned and loading the written text again gives the same records, with the flag unchanged and no log. This holds when the text parses back to the saved value and each loaded instant's ISO rendering parses back to it. |
| `StorageScenarios.MinimalRecordGetsDefaults` | src/utils/sessionStorage.ts:51-58 | A record with only the required fields gets description `""`, no `dueDate`, and no log. |
| `StorageScenarios.NumericIdAccepted` | src/utils/sessionStorage.ts:15 | A truthy number is accepted as `id` and copied unchanged. |
| `StorageScenarios.StringCompletedLoadsNothing` | src/utils/sessionStorage.ts:15 | `completed: "yes"` is rejected, so loading that one-element array yields nothing. |
| `StorageScenarios.ImpossibleDueDateDropped` | src/utils/sessionStorage.ts:31-41 | `2024-13-40` has the right shape. When `new Date` rejects it, the record is kept without `dueDate`, and a fresh flag in dev mode logs and is set. |
| `StorageScenarios.WrongShapeDueDateDropped` | src/utils/sessionStorage.ts:42-48 | A `dueDate` of the wrong shape is dropped, and the record is kept. |
| `StorageScenarios.MalformedTextLoadsNothing` | src/utils/sessionStorage.ts:71-89 | Text that is not JSON loads no records, and the load error is logged exactly in dev mode. |

## Left out

- Session storage I/O (`getItem`/`setItem`) and the key `todoItems`. Browser plumbing: the stored text is an input of `LoadTodos`, and the stored shapes are the output of `SaveTodos`.
- JSON text handling (`JSON.parse`, `JSON.stringify`). `JSON.parse` is a parameter. `SaveThenLoad` assumes that the written text parses back to the saved value rather than proving it, because there is no JSON codec in the code to verify.
- The internals of `new Date(s)` and `toISOString`. They are platform-defined and lenient, so they are parameters (`DateApi`).
- The `instanceof Date` branch for `createdAt`. Values produced by `JSON.parse` never hold a `Date`.
- The `catch` path of `normalizeTodo` and its log. No step of the total model can throw.
- The `catch` paths of `loadTodos` other than a `JSON.parse` failure (for example, `getItem` throwing), and all of `saveTodos`' `catch` path (serialisation or quota failures). They depend on the storage medium.
- The text of the `console.debug` messages. A log is modelled only as a boolean output.
- Strings that are not sequences of Unicode scalar values. `JSON.parse` can yield a string holding a lone UTF-16 surrogate, which a Dafny `string` cannot hold. No decision of the normaliser depends on this: the only character test is the ten-ASCII-character `dueDate` shape, and otherwise only emptiness and equality of strings matter.
- Number precision. JSON numbers are modelled as reals, so floating-point rounding is not modelled; only zero versus non-zero matters here.
- Idempotence of saving. Saving is a function of its input, so the same records always give the same stored shapes; no separate lemma states it.
