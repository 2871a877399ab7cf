# Business-process task separator: a Dafny model of its state logic

The application lets a user enter a business context and an ordered list of
short task descriptions. It then asks a generative-language service to
classify each task as `AI_OPTIMAL`, `HYBRID` or `HUMAN_ESSENTIAL`. Everything
lives in one file, `src/App.tsx`: the `App` component and its row component
`TaskRow`, whose key handler is modelled by `Session.App.KeyDown`. This
project models the state logic of both and proves properties of it:

- **The task list** (`TaskList`). Rows are `(id, content)` pairs. They are
  edited by inserting a blank row after a position, changing a row's content,
  deleting a row, loading the sample data, and reordering by drag. Ids stay
  unique and the list never becomes empty: deleting the only row clears it.
- **The request builder** (`Prompt`). It selects the non-blank task texts and
  runs the pre-flight checks: a missing API key is reported before an empty
  task list. It then writes the user prompt from the context (or the default
  text) and the tasks numbered from 1.
- **The error banner** (`Messages`). The messages are a datatype with a render
  function. A failed call is classified by substring tests on its error text:
  `"API key"` wins over `"404"`, which wins over the catch-all.
- **The category vocabulary** (`Results`). It has the three categories, the
  schema literals, the record type, and the `label` entry of the colour table
  `COLORS`, keyed by schema literal as in the code; the card label of a
  category is the entry under its literal.
- **The analysis session** (`Session.App`). This class holds the component's
  state fields. Its methods are the event handlers. The awaited call is split
  in two: `Run` goes up to the call and hands back the request, and `Complete`
  finishes from an abstract outcome (parsed value or error message). Its
  invariant `Valid()` says:
  - the list is well formed;
  - the session is busy exactly while a call is awaited;
  - nothing is shown while busy;
  - results and an error are never shown together.

`Text` models the JavaScript string primitives the component uses: `trim`,
`includes`, `join` and decimal rendering of numbers. It also has a splitter,
used as the reference partner of `join`. `Wrappers` holds `Option` and
`Result`.

Some behaviour is absent from the code, and the model does not add it:

- There is no language selector. The prompt and labels are fixed Japanese
  texts.
- There is no separate parse or schema error. A response that is not JSON
  throws inside the `try`, so it reaches the catch block, where the parser's
  message is classified like any other error message (it may mention `404`
  or `API key`). A response that is JSON is stored as it is, with no shape
  or count check.
- Single-flight is enforced only by the run button: it is disabled while busy
  and not rendered while results are shown (`App.CanRun`).
- "Model not found" is detected by the substring `404` in the error text.
- Of each `COLORS[...]` entry (src/App.tsx:67-89, looked up at 580) only
  `label` is modelled; the CSS classes and the icon are presentation.

The Backspace guard `content === '' && (index > 0 || content === '')` reduces
to `content === ''`: Backspace on an empty first row deletes that row too,
unless it is the only one (`TaskList.BackspaceDeletesIffEmpty`).

## Model

| member | source | states |
|---|---|---|
| `Text.TrimEmptyIffBlank` | src/App.tsx:238 | `trim()` yields the empty string exactly when every character is ECMAScript whitespace or a line terminator |
| `Text.TrimSlice` | src/App.tsx:238 | the trimmed text is the slice after the leading whitespace, with only whitespace around it, and it neither starts nor ends with whitespace |
| `Text.TrimStartSpec` | src/App.tsx:238 | stripping leading whitespace removes a blank prefix and stops at the first non-whitespace character |
| `Text.TrimEndSpec` | src/App.tsx:238 | stripping trailing whitespace removes a blank suffix and stops at the last non-whitespace character |
| `Text.ContainsIffOccurs` | src/App.tsx:276-277 | the left-to-right `includes` search succeeds exactly when the substring occurs at some index |
| `Text.SplitJoin` | src/App.tsx:263 | splitting at the separator undoes `join`, for pieces that do not contain it |
| `Text.NatToString` | src/App.tsx:263 | the decimal rendering of a number is a non-empty string of digits, with a leading `0` only for zero |
| `Text.NatToStringRoundTrip` | src/App.tsx:263 | reading the decimal rendering back gives the number |
| `Results.ParseToken` | src/App.tsx:111-114 | a text denotes a category only if it is that category's schema literal; any other text denotes none |
| `Results.ParseTokenRoundTrip` | src/App.tsx:111-114 | every category's schema literal reads back as that category |
| `Results.ColorLookup` | src/App.tsx:67-89 | the colour table has an entry exactly for the three schema literals, that entry is the label of the category the literal denotes, and any other text is not among the table's own keys |
| `Results.LabelInjective` | src/App.tsx:67-89 | different categories have different card labels |
| `Results.CardLabels` | src/App.tsx:579-581 | one card label per record, in arrival order, each the label of that record's category |
| `Results.CardLabelsDistinct` | src/App.tsx:579-609 | records of different categories get different card labels |
| `Messages.RenderInjective` | src/App.tsx:240-279 | the banner text determines the error: no two errors render alike |
| `Messages.Classify` | src/App.tsx:275-279 | invalid key iff the text contains `API key`; otherwise model-not-found (naming the model) iff it contains `404`; otherwise the catch-all carrying the text |
| `Messages.ClassifyRendered` | src/App.tsx:275-278 | the banner shows the invalid-key text, the model-not-found text embedding the model id, or the base text followed by ` (` + error text + `)` |
| `Messages.KeyTakesPriority` | src/App.tsx:276-277 | every error text containing both `404` and `API key` is reported as an invalid key, not as model-not-found |
| `TaskList.InitialWellFormed` | src/App.tsx:209 | the initial list is one blank row with id `1` and satisfies the invariant |
| `TaskList.UpdateContentSpec` | src/App.tsx:220-222 | an update keeps the length and the id sequence, changes only the matching row's content, and is a no-op for an absent id |
| `TaskList.UpdatePreservesWellFormed` | src/App.tsx:220-222 | an update keeps the list non-empty with unique ids |
| `TaskList.RemoveId` | src/App.tsx:229 | the filtered list is no longer than the original and no longer holds the id |
| `TaskList.RemoveAbsent` | src/App.tsx:229 | filtering out an id that no row has changes nothing |
| `TaskList.RemoveAt` | src/App.tsx:229 | with unique ids, filtering out the id of row k removes exactly row k and keeps the rest in order |
| `TaskList.DeleteSpec` | src/App.tsx:224-230 | on a one-row list delete clears the row and keeps the length at 1; on a longer list it removes exactly the matching row; an absent id changes nothing |
| `TaskList.DeletePreservesWellFormed` | src/App.tsx:224-230 | delete removes at most one row, never empties the list and keeps ids unique |
| `TaskList.SpliceStart` | src/App.tsx:216 | the splice position lies within the array and equals the start argument when that is in range |
| `TaskList.InsertAfterSpec` | src/App.tsx:214-218 | for a row index i the list grows by one, position i+1 holds the new blank row, rows 0..i are unchanged and later rows shift right in order |
| `TaskList.InsertAfterLastAppends` | src/App.tsx:496 | the add-row button appends a blank row |
| `TaskList.InsertPreservesWellFormed` | src/App.tsx:214-218 | inserting a row with a fresh id keeps ids unique |
| `TaskList.CopyAndSplice` | src/App.tsx:215-216 | the array copy followed by the in-place splice yields the list with the blank row inserted |
| `TaskList.SampleListSpec` | src/App.tsx:232-235 | with distinct generated ids the sample list has the nine sample texts in order and satisfies the invariant |
| `TaskList.DistinctMultiplicity` | src/App.tsx:481 | a sequence without repeats holds each value at most once (used to show that a drag keeps ids unique) |
| `TaskList.RepeatMultiplicity` | src/App.tsx:481 | a value at two positions occurs at least twice (used to show that a drag keeps ids unique) |
| `TaskList.PermutationPreservesWellFormed` | src/App.tsx:481 | any permutation of a well-formed list, as the drag library returns it, is well formed |
| `TaskList.BackspaceDeletesIffEmpty` | src/App.tsx:183 | the Backspace guard holds exactly when the row's content is empty |
| `TaskList.EditPreservesWellFormed` | src/App.tsx:214-235 | every single edit with fresh ids and permuting drags keeps the invariant |
| `TaskList.EditsPreserveWellFormed` | src/App.tsx:214-235 | any admissible sequence of edits keeps the invariant |
| `TaskList.NeverEmpty` | src/App.tsx:209-235 | from the initial list no admissible sequence of edits leaves the list empty |
| `Prompt.ValidTasks` | src/App.tsx:238 | the selected texts are no more than the rows |
| `Prompt.ValidTasksConcat` | src/App.tsx:238 | selection distributes over concatenation, so the relative order of the rows is kept |
| `Prompt.ValidTasksSingle` | src/App.tsx:238 | a row is selected, untrimmed, exactly when its content is not blank |
| `Prompt.ValidTasksEmptyIffAllBlank` | src/App.tsx:238 | nothing is selected exactly when every row is blank |
| `Prompt.ValidTasksExample` | src/App.tsx:238 | rows A, blank, B select A, B |
| `Prompt.ValidTasksInsertAfter` | src/App.tsx:214-218 | inserting a blank row never changes the selected tasks |
| `Prompt.Preflight` | src/App.tsx:238-241 | a missing key is reported exactly when the key is empty, regardless of the tasks; the no-tasks error exactly when the key is present and every row is blank; otherwise the selected tasks, at least one |
| `Prompt.NumberedLineRoundTrip` | src/App.tsx:263 | a task line reads back as its number and its task text |
| `Prompt.TaskSectionLines` | src/App.tsx:262-263 | for at least one task, and when no task text contains a newline, the task section has one line per task and line i is `i+1. ` followed by task i |
| `Prompt.PromptMentions` | src/App.tsx:258-264 | the prompt contains the context, or the default text when the context is empty, and every numbered task line |
| `Session.App.constructor` | src/App.tsx:206-212 | empty key and context, the second model of the list, the one-row initial list, not busy, no results, no error |
| `Session.App.SetApiKey` | src/App.tsx:394-400 | the key field takes the typed (or cleared) value and nothing else changes |
| `Session.App.SetSelectedModel` | src/App.tsx:418 | the selected model changes and nothing else does |
| `Session.App.SetContext` | src/App.tsx:464 | the context changes and nothing else does |
| `Session.App.AddTask` | src/App.tsx:214-218 | the list becomes the list with a blank row spliced in after the index; the invariant is kept |
| `Session.App.UpdateTask` | src/App.tsx:220-222 | the list becomes the updated list, with the same length and ids |
| `Session.App.DeleteTask` | src/App.tsx:224-230 | the list becomes the list after delete, at most one row shorter |
| `Session.App.LoadSampleData` | src/App.tsx:232-235 | the context becomes the sample context and the list the sample rows |
| `Session.App.Reorder` | src/App.tsx:481 | the list takes the permuted order and stays well formed |
| `Session.App.KeyDown` | src/App.tsx:178-185 | Enter inserts a blank row after the row; Backspace deletes the row exactly when it is empty; other keys change nothing |
| `Session.App.Run` | src/App.tsx:237-264 | a disabled or hidden button does nothing; a missing key, then no tasks, sets that error and leaves busy flag and results alone; otherwise the session becomes busy, error and results are cleared, and the request carries key, model and prompt |
| `Session.App.Complete` | src/App.tsx:266-282 | success stores the parsed value as results; failure stores the classified error for the model the call was made with and leaves results empty; the session is no longer busy |
| `Session.App.EditAndRerun` | src/App.tsx:548-551 | results and error are cleared; tasks, context and settings are untouched |

## Left out

- Rendering: the JSX view, styling, icons, animation, print layout, the date
  and `window.print`. These are presentation only.
- The focus-on-mount effect of a task row. It is a DOM side effect.
- The generative service client, `getGenerativeModel`, `generateContent`,
  `SYSTEM_PROMPT` and the response schema's enforcement. They are a foreign
  network call. `Run` returns the request and `Complete` takes the outcome
  as an argument.
- `JSON.parse`. The outcome carries the parsed value directly, or the thrown
  message. A parsed value that is not an array of records and not `null`,
  such as a number or an object, is not modelled. The code stores such a
  value unchecked.
- Records that break the response schema (src/App.tsx:105-120). The outcome
  carries typed records, which assumes the provider obeyed the schema. Any
  array element is stored unchecked by `setResults` (271). An element that
  lacks `task`, `reason` or `prescription` but has a valid category renders
  a card with an empty text. Only an element whose `category` is missing or
  not one of the three literals makes `COLORS[result.category]` (580)
  undefined, and rendering then throws at `style.border` (586).
  `Results.CardLabels` and `Results.CardLabelsDistinct` hold only for
  records that follow the schema.
- Results.ColorLookup: the map models only the colour table's own keys.
  A bracket lookup on the JavaScript object also finds inherited
  `Object.prototype` members (`toString`, `constructor`, `valueOf`,
  `__proto__`), for which `COLORS[...]` is a function or an object rather
  than undefined; those names are not modelled, so "any other text finds no
  entry" holds of the table's own keys only.
- Session.App.Complete: an error value without a `message` property is not
  modelled. In the code the catch block would itself throw; the busy flag
  would still be cleared but no error would be shown.
- `crypto.randomUUID`. Callers supply the new ids, and a precondition says
  they are not already in the list.
- The drag library's reordering. The new order is an argument, with a
  precondition that it permutes the rows.
- The concurrency of the awaited call. It is modelled as the two steps `Run`
  and `Complete`. Task edits between them are ordinary method calls.
- `console.error`, and the model description lookup (`currentModelInfo`),
  which is display only.
- Session.App.Run: the button's disabled state and whether it is rendered are
  folded into `CanRun`. The handler itself has no such guard.
- Prompt.TaskSectionLines: it is stated only for at least one task and for
  task texts without newlines. The prompt is built only after the no-tasks
  check (src/App.tsx:241), and with no tasks the empty section would split
  into one empty piece. A text input cannot produce a newline, and a text
  containing one would break the one-line-per-task reading.
- Strings are sequences of Unicode scalar values, not JavaScript's UTF-16
  code units, so a lone surrogate cannot be written. Nothing the model
  relies on depends on this: every character `trim` strips lies in the
  Basic Multilingual Plane, and the `includes` needles `API key` and `404`
  and the `\n` separator are ASCII.
