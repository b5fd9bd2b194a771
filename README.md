# API Doctor: request form, history search and AI analysis in Dafny

API Doctor is a browser client for trying out HTTP APIs: the user fills in a
request form (method, URL, header and query-parameter rows, body), submits it,
looks at the response, browses earlier requests in a searchable history, and
may ask a hosted generative-AI service for a review of a request/response
pair. Almost all of it is view code. This project models the three pieces of
logic in it that can be stated exactly:

- **The request form** (`RequestForm`, from `components/RequestScreen.tsx`):
  the initial state with its defaults, the three edits of the header and
  parameter lists (write one field of a row, append an empty row, remove a
  row), and the request built on submit, which drops every row whose key is
  empty. Rows are objects in the source, and the field editor copies the list
  shallowly and then writes into the shared row object; `ChangeField` is a
  method over a sequence of `Pair` objects so that this sharing shows: the
  list handed in sees the write too. The other operations never write into a
  row and are functions over row values (`KV`); `Snapshot` links the two views.
- **The history screen** (`History`, from `components/HistoryScreen.tsx`):
  the search, which keeps an entry when the lower-cased term occurs in the
  lower-cased URL or method; the success marker (a response with a 2xx
  status); and when "Clear All" and the "No history found" message show.
- **The AI analysis** (`Analysis`, from `services/geminiService.ts`): the
  missing-key guard, the prompt with the serialised response body cut to 5000
  characters, and the catch that turns every failure of the vendor call or of
  parsing its reply into one fixed fallback value. The vendor call,
  `JSON.stringify` and `JSON.parse` are parameters of `Analyze`; the failure
  causes are kept apart in `Attempt` and merged by `Recover`.

`Seqs` holds the order-preserving filter that both the submit step and the
search use, with its properties proved once. `Transaction` holds the record
shapes (the source's `types` module is not part of this model; the fields
are the ones the modelled code reads). `Wrappers` holds `Option` and `Result`.

Points where the code does less than it appears to:

- The analysis is declared to resolve to a suggestion, and its catch-all
  suggests it never fails once a key is given. But the response body is
  serialised and cut outside the `try` block
  (`services/geminiService.ts:29`), so a body that `JSON.stringify` turns into
  `undefined` (or on which it throws) makes the call reject. `Analyze` returns
  `Err(BodyNotSerialisable)` there; it returns a value on every other path.
- No URL or method validation happens on submit; the form relies on the
  input's `type="url"`/`required` attributes and on a fixed method list.
- The search box's placeholder mentions status, but the search looks at the
  URL and the method only; the model follows the search.

## Model

| member | source | states |
|---|---|---|
| `RequestForm.Initial` | components/RequestScreen.tsx:12-17 | URL taken as is; method is the request's, or the default method when it is empty; header list defaults to one `Content-Type: application/json` row, parameter list to one empty row, body to `{\n  \n}`; a non-empty field is kept |
| `RequestForm.ChangeField` | components/RequestScreen.tsx:19-29 | an index with no row fails; otherwise the result is the same row objects in the same order, only `field` of row `index` becomes the new value, no other object changes, and the list passed in sees the write; for distinct rows its values become `SetField` of the old ones |
| `RequestForm.SetField` | components/RequestScreen.tsx:26-27 | the value view of the edit: same length, the chosen field of row `i` set, its other field and every other row unchanged |
| `RequestForm.SetFieldUndo` | components/RequestScreen.tsx:26-27 | writing back the old field value restores the list |
| `RequestForm.AddRow` | components/RequestScreen.tsx:31-33 | the old rows unchanged followed by exactly one empty row |
| `RequestForm.RemoveAt` | components/RequestScreen.tsx:35-40 | the index filter drops exactly the row at `index` and keeps the others in order; an index out of range leaves the list unchanged |
| `RequestForm.RemoveUndoesAdd` | components/RequestScreen.tsx:31-40 | removing the row just appended gives back the list |
| `RequestForm.Submit` | components/RequestScreen.tsx:42-53 | id and timestamp as supplied, URL, method and body from the form unchanged, header and parameter lists no longer than the form's, and every submitted key non-empty |
| `RequestForm.SubmitKeepsExactlyKeyedRows` | components/RequestScreen.tsx:48-49 | with the row test `HasKey` (the key is non-empty) as the filter: submitted headers and params are subsequences of the form's rows holding every row with a non-empty key (whatever its value) as often as the form does, and no other |
| `RequestForm.AddRowNotSubmitted` | components/RequestScreen.tsx:31-49 | an appended empty row never reaches the submitted request |
| `RequestForm.RemoveKeylessRowNotSubmitted` | components/RequestScreen.tsx:35-49 | removing a row with an empty key does not change the submitted request |
| `RequestForm.ReloadThenSubmit` | components/RequestScreen.tsx:12-53 | a request with method and body set and non-empty, fully keyed header and parameter lists loads into the form and submits back to itself |
| `Seqs.Filter` | components/HistoryScreen.tsx:14-17 | the filtered list is no longer than the input and every element in it satisfies the predicate |
| `Seqs.FilterIsSubsequence` | components/RequestScreen.tsx:48-49 | filtering keeps the original relative order |
| `Seqs.FilterMultiplicity` | components/RequestScreen.tsx:48-49 | an element satisfying the predicate is kept as often as it occurs, any other never |
| `Seqs.FilterAppend` | components/RequestScreen.tsx:48-49 | filtering a concatenation is concatenating the filtered parts |
| `Seqs.FilterKeepsAll` | components/HistoryScreen.tsx:14-17 | a list whose every element satisfies the predicate is returned unchanged |
| `Seqs.FilterEmptyIff` | components/HistoryScreen.tsx:14-17 | the result is empty exactly when no element satisfies the predicate |
| `Seqs.FilterIdempotent` | components/HistoryScreen.tsx:14-17 | filtering twice with one predicate is filtering once |
| `Seqs.FilterAgreeing` | components/HistoryScreen.tsx:14-17 | predicates that agree on every element filter alike |
| `History.Lower` | components/HistoryScreen.tsx:15-16 | lower-casing keeps the length and maps each character (ASCII letters only) |
| `History.LowerIdempotent` | components/HistoryScreen.tsx:15-16 | lower-casing twice is lower-casing once |
| `History.IncludesIff` | components/HistoryScreen.tsx:15-16 | `includes` holds exactly when the term occurs at some position of the text |
| `History.IncludesEmpty` | components/HistoryScreen.tsx:15-16 | every string includes the empty term |
| `History.Matches` | components/HistoryScreen.tsx:14-17 | an entry matches exactly when the lower-cased term occurs at some position of its lower-cased URL or of its lower-cased method |
| `History.Search` | components/HistoryScreen.tsx:14-17 | the listed entries are no more than the history and each matches the term in its URL or method |
| `History.SearchKeepsExactlyMatches` | components/HistoryScreen.tsx:14-17 | the listed entries are an order-preserving subsequence of the history holding each matching entry as often as the history does, and no other |
| `History.SearchEmptyTermListsAll` | components/HistoryScreen.tsx:12-17 | the empty term lists the whole history |
| `History.SearchIdempotent` | components/HistoryScreen.tsx:14-17 | searching the listed entries again with the same term lists them again |
| `History.SearchIgnoresCase` | components/HistoryScreen.tsx:14-17 | lower-casing the term first lists the same entries |
| `History.SearchIgnoresLetterCase` | components/HistoryScreen.tsx:14-17 | two terms that are equal up to the case of ASCII letters, position by position, list the same entries |
| `History.IsSuccess` | components/HistoryScreen.tsx:49 | success exactly when a response is present and its status is in the 2xx class; an absent response is a failure |
| `History.ShowsClearAll` | components/HistoryScreen.tsx:23 | "Clear All" is offered exactly when the empty search would list something, i.e. the history is non-empty |
| `History.ShowsEmptyMessage` | components/HistoryScreen.tsx:43 | the empty-list message shows exactly when no entry matches the term |
| `History.EmptyMessageAndClearAll` | components/HistoryScreen.tsx:23-43 | with no history the message shows for every term; for the empty term it shows exactly when "Clear All" is not offered |
| `Analysis.FallbackFields` | services/geminiService.ts:56-62 | the fallback's documentation, improvements, security, schemaUpdates and codeSnippet members hold exactly the fixed failure texts, one-element list and empty list |
| `Analysis.Truncate` | services/geminiService.ts:29 | a prefix of the input of length `min(|s|, n)` |
| `Analysis.BuildPrompt` | services/geminiService.ts:15-39 | request method, URL, headers and body and response status code and text, time and size fill their own slots; the response-body slot is a prefix of the serialised body, at most 5000 characters, the whole body when it fits and exactly 5000 characters otherwise |
| `Analysis.PromptDeterminedBySlots` | services/geminiService.ts:15-39 | the prompt is determined by request method, URL, headers and body, response status code and text, time and size, and the truncated body; id, params and timestamps do not enter it |
| `Analysis.Attempt` | services/geminiService.ts:41-53 | a failed call, an absent or empty text and an unparsable text are each reported as such; otherwise the result is the parsed value |
| `Analysis.Recover` | services/geminiService.ts:54-62 | any failure becomes the fallback value; a parsed value is returned as is |
| `Analysis.Analyze` | services/geminiService.ts:4-63 | an empty key, and only it, gives "API Key is missing"; with a key an unserialisable body, and only it, rejects; every other path returns a value |
| `Analysis.MissingKeyConsultsNothing` | services/geminiService.ts:9-13 | with an empty key the outcome does not depend on the serialiser, the vendor call or the parser |
| `Analysis.FallbackExactlyOnFailure` | services/geminiService.ts:50-62 | with a key the result is the fallback exactly when the call failed, its text was absent or empty, the text did not parse, or it parsed to the fallback itself |
| `Analysis.ParsedValuePassesThrough` | services/geminiService.ts:53 | text that parses yields the parsed value as is, with no check of the suggestion fields |
| `Analysis.AnalyzeIgnoresBodyTail` | services/geminiService.ts:29 | the analysis sees the response body only through the first 5000 characters of its serialisation |

## Left out

- Rendering, styling, icons, animations and the selected tab of the form: presentational.
- `crypto.randomUUID()` and `Date.now()` on submit: the identifier and timestamp are parameters of `Submit`.
- The vendor client, its model name and configuration, and the network call: `Analyze` takes the call as a function from prompt to reply; `async`/`await` and `console.error` are not modelled.
- `JSON.stringify` and `JSON.parse`: parameters of `Analyze`; the serialisation of the headers slot is not written out (the prompt holds the header list itself), and the fixed wording of the prompt template is not reproduced, only its interpolated slots.
- `Analysis.Truncate`: lengths are counted in Unicode scalar values, not in the UTF-16 code units that `substring` counts, so a body with characters outside the Basic Multilingual Plane keeps more characters in the model than in the source, and a cut inside a surrogate pair is not modelled.
- `History.Lower`: maps ASCII letters only, because JavaScript's `toLowerCase` follows the full Unicode case tables, which are not modelled.
- Numbers (`statusCode`, `time`, `size`) are integers; fractional or NaN values are not modelled.
- `RequestForm.ChangeField`: an index that is not an integer, which also makes the source throw, is not modelled.
- Only `ChangeField` works on row objects; the initial state, append, remove and submit are modelled on row values, so the sharing of row objects between the initial request, the form and the submitted request is not captured.
- `new URL(...).pathname` and `toLocaleTimeString` in the history list: browser calls used only for display.
- The processing, home, result and AI-suggestion screens: timers, static markup, floating-point display and clipboard writes; the result screen's success test is the same as `History.IsSuccess`.
- Screen routing, the persisted history store and any rule against a second submission while one runs: they are not in the modelled files.
