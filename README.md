# Smart-Form survey back end and result helpers, in Dafny

This project models the core of a small survey application. A creator
registers, uploads a survey, shares its link and reads the results. The
model has two parts.

**The back end, `api/data.ts`.** A key-value store holds one directory
record under `survey_app_users`, mapping each username to its credential.
It also holds one record per creator under `survey_app_data_<username>`,
made of the survey (or none), the responses in append order and an open
flag. The model has:

- `DataApi.KvStore`, a class over that map. It has the operations
  `saveUser`, `authenticateUser`, `getData` (which writes the default
  record on repair), `saveData` and `addResponse`.
- the HTTP handler, which routes a request to a status code, a body and
  the store it leaves.

Each method is proved equal to a pure transition function, and the lemmas
are stated over those functions.

**The helpers lifted from the React components in `index.tsx`:**

- the analysis the results view builds with nested loops;
- `getResponseValue` and the CSV download;
- the respondent form's submit check, answered count and answer selection;
- the sign-in form's checks;
- the creator dashboard's optimistic `saveData` merge, survey deletion and
  open/close toggle.

The CSV output comes with a reader for the format. The model proves that
reading the export back gives the header record, then one record per
response, with the id and one field per question.

JavaScript semantics that the code depends on are written out explicitly:

- Truthiness: `""` is falsy and every array is truthy, even an empty one.
  A header or query value of `""` counts as absent.
- Whitespace is the ECMAScript set, used both by `trim` and by `/\s/`.
- `.length` counts UTF-16 code units.
- `Date.now()` is read twice by `addResponse`, so the model takes two
  clock readings as parameters.

The client sends `action: 'createSurvey'` (index.tsx:683), but the handler
has no case for it. Such a request therefore gets the 400 `Invalid action`
reply, which `DataApi.CreateSurveyRejected` states.

## Model

| member | source | states |
|---|---|---|
| DataApi.DataKey | api/data.ts:38-39 | a data key is never the directory key, and its suffix after `survey_app_data_` is the username |
| DataApi.DataKeyInjective | api/data.ts:39 | distinct usernames have distinct data keys |
| DataApi.Directory | api/data.ts:45-47 | the directory is the stored users record, or empty when the key is missing |
| DataApi.KvStore.SaveUser | api/data.ts:49-62 | returns true exactly when the username is new; then the store is the old one plus the directory entry and the default record, otherwise it is unchanged |
| DataApi.RegisterEffect | api/data.ts:49-62 | registering a new user adds exactly that directory entry, writes `{survey: null, responses: [], isSurveyOpen: true}` for it and leaves every other creator's record unchanged |
| DataApi.KvStore.AuthenticateUser | api/data.ts:64-70 | succeeds exactly when the username is in the directory and its stored password equals `password_raw`; modifies nothing |
| DataApi.RegisterThenAuthenticate | api/data.ts:49-70 | a newly registered user authenticates with the password they registered with |
| DataApi.KvStore.GetData | api/data.ts:74-85 | returns the record, or null, or the default record; the new store is the old one with the repair write exactly when the record is missing and the user is registered |
| DataApi.GetDataCases | api/data.ts:74-85 | the three cases: an existing record is returned with no write; no record and no user gives null with no write; no record and a registered user writes and returns the default record |
| DataApi.GetDataRepairIsStable | api/data.ts:74-85 | a second read after a repair returns the same record and writes nothing |
| DataApi.KvStore.SaveData | api/data.ts:87-89 | the store is the old one with only this creator's key overwritten |
| DataApi.SaveDataIsolated | api/data.ts:87-89 | after `saveData` the creator's record is the data given; the directory and every other creator's record are unchanged |
| DataApi.KvStore.AddResponse | api/data.ts:91-103 | completes exactly when `getData` finds a record, otherwise throws "Survey owner not found."; the store follows `StoreAfterAppend`, with both clock readings taken as parameters |
| DataApi.AppendEffect | api/data.ts:91-103 | exactly one response is appended at the end; earlier responses keep their order; survey, open flag and directory are unchanged; a closed survey still accepts the response |
| DataApi.AppendUnknownOwner | api/data.ts:92-95 | for an owner with neither a record nor a directory entry, nothing is written |
| DataApi.RouteOf | api/data.ts:106-166 | a GET that gets no data reply is a 400; every method other than GET and POST is a 405 |
| DataApi.PublicReply | api/data.ts:121-127 | 200 exactly when a record with a survey exists, with only the survey and the open flag in the body; otherwise 404 |
| DataApi.HandleSpec | api/data.ts:106-172 | the handler never deletes a key; a reply other than 200, 201 or 404 writes nothing; only a 201 changes the directory, and then it gains a name |
| DataApi.KvStore.Handle | api/data.ts:106-172 | the reply and the new store are those of `HandleSpec` for the same request and clock readings |
| DataApi.GetHeaderTakesPrecedence | api/data.ts:112-119 | with an `x-username` header present, the `id` parameter has no effect and the reply is 200 with the creator's full record |
| DataApi.PublicGetHidesResponses | api/data.ts:121-127 | a public GET by `id` never returns the responses: either 200 with survey and open flag, or 404 |
| DataApi.GetWithoutIdentity | api/data.ts:130 | a GET with neither header nor `id` is a 400 and writes nothing |
| DataApi.UnknownActionRejected | api/data.ts:161-162 | a POST whose action is none of the four known ones is a 400 `Invalid action` and writes nothing |
| DataApi.CreateSurveyRejected | api/data.ts:136-162 | the client's `createSurvey` action gets a 400 and leaves the store unchanged |
| DataApi.SaveDataNeedsHeader | api/data.ts:147-149 | `saveData` without the header is a 400 and writes nothing |
| DataApi.AddResponseNeedsFields | api/data.ts:154-156 | `addResponse` with a missing owner or missing answers is a 400 and writes nothing |
| DataApi.AddResponseUnknownOwner | api/data.ts:154-157 | `addResponse` for an unknown owner is a 500 carrying "Survey owner not found." and writes nothing |
| DataApi.OtherMethodsNotAllowed | api/data.ts:166 | any other method is a 405 with `Allow: GET, POST` and writes nothing |
| DataApi.RegisterTwice | api/data.ts:137-140 | registering the same name twice, the empty name included, gives 201 then 409, and the second attempt leaves the first credential in place |
| DataApi.RegisterThenFetch | api/data.ts:49-62 | right after registering, the creator's GET returns the default record |
| DataApi.TwoResponsesAppended | api/data.ts:91-103 | two successive responses for one owner are both kept, in the order they were sent |
| DataApi.BackedReadNeedsNoRepair | api/data.ts:74-85 | once every registered creator has a record, `getData` returns the stored record and never writes |
| DataApi.HandlePreservesInvariants | api/data.ts:106-172 | every request keeps the store well typed and every registered creator backed by a data record |
| Results.Analyze | index.tsx:792-820 | the nested loops' result equals the fold `Tally` of the responses over the questions |
| Results.InitialPhase | index.tsx:794-802 | the first loop builds an entry for each question key, in question order |
| Results.StartEntry | index.tsx:796-801 | a question's entry starts with a count of 0 for each of its options, total 0 and no text answers |
| Results.TallyPhase | index.tsx:805-816 | one response is applied to every question in order |
| Results.ApplyAnswer | index.tsx:806-815 | one question's step of the inner loop changes only that question's entry, by counting that question's answer in the response |
| Results.CountAnswer | index.tsx:808-815 | a truthy answer raises the total; for a text question a non-blank answer is listed; otherwise a string answer raises its own count, starting from 0 when it is not an option |
| Results.InitialAt | index.tsx:794-802 | with distinct keys, every question's entry after the first phase has count 0 for each option, total 0 and no text answers |
| Results.TallyResponseAt | index.tsx:805-816 | with distinct keys, one response changes each question's entry exactly once, by that question's answer |
| Results.TallyAt | index.tsx:804-817 | per question: the total is the number of responses with a truthy answer; a text question lists exactly the non-blank answers in response order and keeps its zero counts; any other question has counts for exactly its options and the strings answered, each equal to the number of responses that gave that string |
| Results.TotalSplits | index.tsx:808-815 | the total is the number of string answers plus the number of array answers, and arrays raise no count |
| Results.SingleCountBounded | index.tsx:808-815 | no string is counted more often than string answers were given, nor more often than the question was answered |
| Results.AnalyzeMeaning | index.tsx:792-820 | for a survey with distinct question ids, each question's entry agrees with the reference counts and no count exceeds its total |
| CsvExport.EscapeQuotesPlain | index.tsx:948 | a text without a double quote is copied unchanged by the quote doubling |
| CsvExport.Quote | index.tsx:949 | a cell begins and ends with a double quote |
| CsvExport.ResponseValue | index.tsx:986-994 | a missing answer gives `''`; an array gives its items joined with `", "`; a likert string found among the options gives its 1-based position (the first such position); any other string gives itself |
| CsvExport.CsvContent | index.tsx:939-954 | CSV text exists exactly when there is a survey and at least one response, and it starts with the byte-order mark |
| CsvExport.HeaderCells | index.tsx:942 | the header is `Response ID` followed, in question order, by each question's text quoted with its quotes doubled |
| CsvExport.RowCells | index.tsx:943-952 | a row is the response id quoted, followed, in question order, by each question's `getResponseValue` as text, quoted with its quotes doubled |
| CsvExport.QuoteReadsBack | index.tsx:942-950 | a cell with its quotes doubled and wrapped in quotes reads back as the original text when a comma, a line feed or the end follows it |
| CsvExport.CsvReadsBack | index.tsx:939-954 | the export read back is the header record followed, in response order, by one record per response: the id in decimal, then each question's `getResponseValue` as text, even when answers contain commas, quotes or line breaks |
| CsvExport.CsvShape | index.tsx:939-954 | the export has one record more than there are responses, starts with `Response ID`, and every record has one field more than there are questions |
| Respondent.SelectOption | index.tsx:697-699 | the answer under `q-<id>` becomes the selection; every other answer is kept and no other key is added |
| Respondent.Unanswered | index.tsx:702-704 | the list holds exactly the questions without a non-empty string or a non-empty array answer |
| Respondent.HandleSubmit | index.tsx:701-710 | the answers are sent unchanged exactly when the unanswered list is empty; otherwise the alert is the fixed prefix, the first unanswered question's text and a closing quote |
| Respondent.SubmitIffAllAnswered | index.tsx:701-710 | the answers are sent exactly when every question is answered, and they are sent unchanged |
| Respondent.AlertNamesFirstUnanswered | index.tsx:705-707 | otherwise the alert quotes the text of the earliest unanswered question in question order |
| Respondent.AnsweredKeys | index.tsx:712-715 | a key is counted exactly when it is in the answer map and its value is a non-empty array or a string that is not blank |
| Respondent.AnsweredCountBounded | index.tsx:712-715 | the answered count never exceeds the number of answer keys |
| Respondent.SelectOptionCount | index.tsx:712-715 | selecting an answer changes the count only through the selected key: its old contribution is removed and the new one added |
| Respondent.BlankAnswerPassesSubmitUncounted | index.tsx:701-715 | a whitespace-only answer passes the submit check but is not counted as answered |
| Login.HandleLogin | index.tsx:1161-1183 | each error message is shown exactly when its rule is the first to fail: trimmed username shorter than 3, then whitespace in the username, then password shorter than 6, then, when registering, unequal passwords; otherwise registration or authentication is sent with the lower-cased username |
| Login.LoginAcceptedIff | index.tsx:1161-1183 | a request is sent exactly when all four rules hold |
| Login.SentNameShape | index.tsx:1162-1183 | every username sent is at least 3 UTF-16 units long, has no whitespace and no upper-case ASCII letter, and is its own lower-case form |
| Login.SignedIn | index.tsx:1178-1183 | a user is signed in exactly when the form sent a request and the server accepted it, and the name signed in is the lower-cased name the request carried |
| Login.RegisterThenSignIn | index.tsx:1174-1183 | after registering through the form, signing in with the same password and the username in any ASCII capitalisation is accepted by the back end |
| Creator.Merge | index.tsx:897-901 | every supplied field replaces the record's; every other field is kept |
| Creator.MergeNoChange | index.tsx:901 | a patch that supplies nothing leaves the record as it was |
| Creator.MergeIdempotent | index.tsx:901 | merging the same patch twice gives the record of merging it once |
| Creator.MergeComposes | index.tsx:897-901 | two merges in turn equal one merge in which the later patch's fields win |
| Creator.SaveData | index.tsx:897-910 | with no record loaded nothing happens; otherwise the merged record is sent; on success it stays shown; on failure the original is shown again with the error's message, or `Failed to save changes.` when that message is empty |
| Creator.SaveSettles | index.tsx:897-910 | the record shown afterwards is the optimistic one on success and the original on failure |
| Creator.TogglePatch | index.tsx:981-984 | the patch supplies only the open flag, set to the negation of the current one |
| Creator.DeleteEffect | index.tsx:973-979 | deleting clears the survey and the responses and keeps the open flag |
| Creator.ToggleEffect | index.tsx:981-984 | toggling negates only the open flag, and toggling twice restores the record |
| Creator.NewSurveyEffect | index.tsx:927 | after a conversion, the record is the new survey with no responses, open |
| Creator.DeleteThenFetch | index.tsx:973-979 | once a deletion is saved, the survey link gets 404 and the creator's record has no survey and no responses but keeps its open flag |
| Creator.ClosedSurveyStillAppends | index.tsx:981-984 | after a close is saved, the back end still appends a response sent to that owner; the open flag only gates the form |

## Left out

- The `@vercel/kv` client is a map with get and set. Two requests that read and then write can race; no locking exists to model, so concurrency is left out.
- Request and response objects, URL parsing and JSON parsing are left out. A request is a datatype of method, `x-username` header, `id` parameter and parsed body. A body that does not parse is a 500 without the parser's message text.
- Payloads are assumed to have the fields each action reads, with the types the interfaces declare. Extra fields that `saveUser` or `saveData` would store verbatim are not modelled.
- JavaScript objects are modelled as maps. Inherited properties are not: a username such as `constructor` reads as present in the source but absent here.
- `Date.now()` is two clock parameters. The model does not claim the response ids are unique.
- Numbers print in plain decimal. Question ids are integers and response ids are naturals; exponent notation for numbers of 1e21 or more is not modelled.
- Strings.ToLower: only ASCII letters are lower-cased, while `toLowerCase` maps all of Unicode.
- The progress percentage, bar widths and `toFixed` values are floating point and are not modelled.
- React rendering, hooks, styles, `fetch`, `FileReader`, the Blob download, its file name built from the title, the clipboard, `sessionStorage`, `URLSearchParams` and `window.location` are not modelled.
- The AI survey conversion has no implementation in the repository. The model covers only its update to the record (`Creator.NewSurveyEffect`) and the 400 the back end gives its request.
- Password hashing is absent from the source; the model has the plain equality the code performs.
- Results.AnalyzeMeaning: bounds each count by the question's total, and `Results.TotalSplits` shows arrays add to the total and to no count. The sum of all counts is not stated as one bound.
- Creator.SaveData: the error message is taken as given. How `apiClient` builds it from the server's reply is not modelled, and the creator name is assumed present.
