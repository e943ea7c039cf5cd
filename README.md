# Task API core in Dafny

This project models the core of `app.js`, an Express service that keeps a
list of tasks in memory and serves create, read, list, full update (PUT),
partial update (PATCH) and delete on `/tasks`. The model has five parts:

- The request-body validator `validateTask` is a pure function, `Validation.Validate`.
  `Validation.CollectErrors` is a method that pushes the errors one rule at a time,
  as the middleware does. It is proved equal to `Validate`.
- The module-level `tasks` array is `Store.TaskStore`, a class with a `seq<Task>` field.
  Each route handler is a method that returns the `Response` it sends
  (201, 200, 204, 404, 400 with the errors, or 500).
- The records that POST, PUT and PATCH build are specified by the pure functions
  `Store.NewTask`, `Store.Replace` and `Store.Merge`.
  The methods `Store.AssignReplaced` and `Store.AssignMerged` carry out the handlers'
  field-by-field assignments. They are proved equal to `Replace` and `Merge`.
- The GET /tasks pipeline (filter, optional sort, clamp `page`/`perPage`, slice)
  is pure, in `Query`.
- `Js` holds the JavaScript pieces the handlers rely on:
  JSON values, truthiness, `trim`, `includes`, `slice` with its index clamping,
  and the date library as a parameter.

The store keeps an invariant, `Store.Consistent`:

- ids are unique;
- every id was handed out by the id generator;
- every record has a non-empty title;
- the title and description of every record are already trimmed.

Every state-changing handler preserves it.

Foreign services are parameters:

- the id generator is a fresh `id` that the store has never issued;
- the clock is a `now` string;
- `Date.parse` and `new Date(v).toISOString()` are a `DateLib` value;
- `String.prototype.toLowerCase` is a `lower` function.

`trim` is written out with ECMAScript's set of white-space and line-terminator
code points.

## Model

| member | source | states |
|---|---|---|
| Validation.Validate | app.js:17-41 | the error of a field is reported iff the body breaks that field's rule; errors come in the rule order (title, description, completed, dueDate, priority), so no field appears twice; the list is empty iff the body is acceptable field by field |
| Validation.CollectErrors | app.js:17-39 | pushing each broken rule's error in turn gives exactly `Validate` |
| Validation.Broken | app.js:19-38 | the five rules: a title is required unless PATCH and must be a non-blank string; description a string; completed a boolean; dueDate a date `Date.parse` accepts; priority one of the three names |
| Validation.Entry | app.js:21-38 | an error renders as the `{ field, message }` pair the 400 body lists, with the source's field name and message |
| Validation.GatherSpec | app.js:19-38 | running the rules of a list of fields in checking order reports exactly the broken ones among them, in that order |
| Validation.AcceptableIffNoViolation | app.js:19-41 | the field-by-field acceptance condition holds iff no rule is broken |
| Validation.BlankTitleRejected | app.js:19-23 | for create and PUT, an absent, non-string or all-whitespace title always yields a title error |
| Validation.PartialUpdateMayOmitTitle | app.js:19-23 | for PATCH, an absent title yields no title error |
| Validation.ForUpdateRelaxesOnlyTitle | app.js:19-39 | with a title present, PATCH and PUT validation give the same errors; without one, PUT validation gives the title error followed by PATCH validation's errors |
| Validation.FieldsIndependent | app.js:19-39 | whether a field is reported depends only on that field's value |
| Js.Truthy | app.js:80 | JavaScript truthiness of a JSON value: false, null, 0 and `''` are falsy, everything else truthy |
| Js.Trim | app.js:20 | `String.prototype.trim`: strips ECMAScript white space and line terminators from both ends (its properties are the lemmas below) |
| Js.Includes | app.js:104 | `includes`: the needle occurs at some position of the text |
| Js.TrimShape | app.js:20 | `trim` returns a contiguous piece of the input with only white space around it |
| Js.TrimEmptyIff | app.js:20 | a string trims to `''` iff it is all white space |
| Js.TrimIdempotent | app.js:75 | trimming twice is trimming once |
| Js.TrimIsTrimmed | app.js:75 | a trimmed string neither starts nor ends with white space |
| Js.TrimFixesTrimmed | app.js:144 | a string with no white space at either end is its own trim |
| Js.Slice | app.js:126 | `slice(start, end)` with `0 <= start <= len` and `start <= end` is the piece from `start` to `min(end, len)`; it is empty when `start` is at or past the end |
| TaskModel.ParsePriority | app.js:37 | a value is accepted only as the string naming the priority returned |
| TaskModel.PriorityRoundTrip | app.js:37 | each priority's name parses back to it, and exactly `'low'`, `'medium'` and `'high'` parse |
| Store.FindIndex | app.js:54 | no position iff no task has the id; otherwise the first position holding it |
| Store.SameIdSameTask | app.js:54 | with unique ids, two stored tasks with the same id are the same task |
| Store.TitleOf | app.js:75 | the stored title is non-empty and trimmed |
| Store.DescriptionOf | app.js:76 | the stored description is trimmed, and `''` when the body has none |
| Store.CompletedOf | app.js:77 | `completed` is true iff the body sent `true` |
| Store.PriorityOf | app.js:81 | `'medium'` when absent, otherwise the priority the body named |
| Store.DueDateOf | app.js:80 | an absent or falsy `dueDate` gives no due date; a truthy one throws iff the date library cannot format it, and otherwise gives the library's ISO text |
| Store.NewTask | app.js:70-83 | the new record is `None` iff normalising the due date throws; otherwise it is well formed, with the given id, `createdAt == updatedAt == now`, the trimmed title, the trimmed description when one is sent, the priority named by the body, the ISO text of a truthy due date, and the defaults `false`, `''`, `'medium'` and no due date for omitted or falsy fields |
| Store.Replace | app.js:144-149 | PUT keeps `id` and `createdAt` and leaves a well-formed record; it faults iff normalising the due date throws, and then the record left is the old one with title, description and completed already replaced from the body, and dueDate, priority and updatedAt unchanged |
| Store.Merge | app.js:159-166 | PATCH keeps `id` and `createdAt` and keeps records well formed; it faults iff normalising the due date throws, and then the record left is the old one with each present title, description and completed already set from the body and every other field unchanged |
| Store.ReplaceIsCreateKeepingIdentity | app.js:144-149 | a successful PUT builds the record POST would build from the same body, keeping the old id and creation time |
| Store.ReplaceResetsOmitted | app.js:145-149 | PUT resets an omitted description to `''`, completed to `false`, dueDate to absent and priority to `'medium'`, and sets `updatedAt` |
| Store.MergeOverwritesOnlyPresent | app.js:159-166 | PATCH leaves every field the body omits unchanged, sets each present one from the body (a present `dueDate` to its normalised value), and sets `updatedAt` |
| Store.PatchCompletedOnly | app.js:155-166 | a PATCH of `{ completed: b }` passes validation and changes exactly `completed` and `updatedAt` |
| Store.MergeOfFullBodyIsReplace | app.js:140-166 | a body holding every field passes PATCH validation, and PATCH then does what PUT does |
| Store.OwnJsonAcceptable | app.js:140-148 | a stored task's own JSON, with any priority, passes PUT validation, given that the date library reads back its own ISO text |
| Store.OwnJsonDueDate | app.js:147 | a stored task's own due date normalises to itself, given that the date library reads back its own ISO text |
| Store.AsPayload | app.js:151 | the task's JSON as a client would send it back: its title, description, completed flag and priority name, and its due date when it has one |
| Store.PutOwnJson | app.js:140-152 | a PUT of a task's own JSON, with its priority changed, changes only the priority and `updatedAt`, given that the date library reads back its own ISO text |
| Store.PutOwnJsonTitle | app.js:140-152 | a PUT of a task's own JSON with a new non-blank title passes validation and changes only the title, to its trimmed value, and `updatedAt`, given that the date library reads back its own ISO text |
| Store.PutOwnJsonDescription | app.js:140-152 | a PUT of a task's own JSON with a new description passes validation and changes only the description, to its trimmed value, and `updatedAt`, given that the date library reads back its own ISO text |
| Store.PutOwnJsonCompleted | app.js:140-152 | a PUT of a task's own JSON with a new `completed` flag passes validation and changes only that flag and `updatedAt`, given that the date library reads back its own ISO text |
| Store.PutOwnJsonDueDate | app.js:140-152 | a PUT of a task's own JSON with a new due date the library parses passes validation; unless normalising it throws, it changes only the due date, to its normalised value, and `updatedAt` |
| Store.RemoveAt | app.js:174 | `splice(i, 1)`: one element shorter, the others in their order, the same multiset minus the removed task |
| Store.RemovedIdIsGone | app.js:173-174 | after removing the record of a unique id, no record has that id and ids stay unique |
| Store.AppendFresh | app.js:84 | appending a task with a new id keeps ids unique and adds exactly that task |
| Store.UpdateKeepsConsistent | app.js:144-166 | overwriting a record with a well-formed one of the same id keeps the store invariant |
| Store.AssignReplaced | app.js:144-149 | the PUT handler's assignments, in order, give `Replace` |
| Store.AssignMerged | app.js:159-166 | the PATCH handler's guarded assignments, in order, give `Merge` |
| Store.TaskStore.constructor | app.js:9 | the store starts empty and consistent |
| Store.TaskStore.Create | app.js:69-86 | 400 with the errors and nothing stored; or 500 and nothing stored; or 201 with `NewTask`'s record appended at the end and every existing task unchanged |
| Store.TaskStore.Get | app.js:52-62 | 404 iff no task has the id; otherwise 200 with the first stored task of that id, as `find` returns |
| Store.TaskStore.List | app.js:89-132 | returns `Query.Run` of the store, changes nothing, and its total never exceeds the store size |
| Store.TaskStore.Put | app.js:140-152 | 404 before validation; then 400 with nothing changed; otherwise exactly the found position is replaced by `Replace`'s record, 200 or 500 |
| Store.TaskStore.Patch | app.js:155-169 | as PUT, with PATCH validation and `Merge` |
| Store.TaskStore.Delete | app.js:172-177 | 404 with nothing changed, or 204 with exactly the found task spliced out; afterwards no task has that id |
| Scenarios.CreateThenGet | app.js:69-137 | a task created from an accepted body is then served by GET /tasks/:id |
| Scenarios.DeleteThenGet | app.js:135-177 | after DELETE, GET of the same id answers 404 |
| Query.Filter | app.js:94-105 | `filter` keeps exactly the accepted tasks, each as often as in the input, as a subsequence |
| Query.FilterFilter | app.js:93-105 | two filters in a row are one filter by their conjunction |
| Query.SearchText | app.js:104 | the text `search` is looked for in: title, a space and description, run through the lower-casing function (a description is always a string, so `description \|\| ''` is the description) |
| Query.CompletedMatches | app.js:93-94 | with a `completed` parameter, a task passes iff its flag equals whether the parameter is exactly `'true'` |
| Query.PriorityMatches | app.js:97-98 | with a non-empty `priority` parameter, a task passes iff its priority's name equals the parameter |
| Query.SearchMatches | app.js:101-104 | with a non-empty `search` parameter, a task passes iff its lower-cased search text includes the lower-cased parameter |
| Query.Matches | app.js:93-105 | a task passes all three supplied filters |
| Query.Filtered | app.js:93-106 | the three filters applied in the source's order, each only when its parameter is supplied (and, for `priority` and `search`, non-empty); its meaning is stated by `FilteredSpec` |
| Query.FilteredSpec | app.js:90-106 | the filtered list has only tasks from the store that pass every supplied filter, every such task as often as the store has it, in store order |
| Query.ParseSort | app.js:110-111 | `split(':')` of the sort parameter: the field is the text before the first colon, and the direction is descending iff the text between the first and second colon is `desc` (its properties are `ParseSortRoundTrip`) |
| Query.ParseSortRoundTrip | app.js:110-111 | `field:dir` parses back into the field and "descending iff dir is `desc`"; a bare field sorts ascending |
| Query.Property | app.js:114-117 | `task[field]` for the eight task fields (an absent due date is `undefined`); every other field name reads as `undefined` (inherited properties are under "Left out") |
| Query.PropTruthy | app.js:114-116 | the truthiness `!task[field]` tests: `undefined`, `''` and `false` are falsy, every other value truthy |
| Query.StrLess | app.js:117 | string comparison, lexicographic with a proper prefix first, over code points (UTF-16 ordering is under "Left out") |
| Query.Compare | app.js:113-118 | the comparator as written: 0 when both values are falsy, a falsy value first ascending and last descending, otherwise 1 or -1 by `>` times the direction (its properties are the three lemmas below) |
| Query.MissingFieldsTie | app.js:114 | two tasks lacking the sort field compare equal |
| Query.CompareMissingField | app.js:115-116 | a task lacking the field sorts before one that has it ascending, after it descending |
| Query.CompareEqualValues | app.js:117 | two equal truthy values each sort before the other ascending (after, descending): the comparator is inconsistent |
| Query.Sort | app.js:113-118 | sorting yields a permutation of the filtered list |
| Query.InsertAfterTies | app.js:113-118 | inserting after elements that do not come after it places the task last and moves nothing |
| Query.SortKeepsOrdered | app.js:113-118 | a list the comparator consistently finds in order (asked either way round, no element goes after a later one) is left as it is |
| Query.SortWithoutKeyKeepsOrder | app.js:113-118 | sorting by a field no task has keeps the order |
| Query.PageNumber | app.js:122 | `page >= 1`; a positive value is kept; absent, zero or negative gives 1 |
| Query.PerPage | app.js:123 | `1 <= perPage <= 100`; values in range are kept; absent or zero gives 10, negative gives 1, above 100 gives 100 |
| Query.Paginate | app.js:125-126 | at most `perPage` tasks; none when the start is past the end; otherwise element `k` is task `start + k` and the page is as long as what remains, up to `perPage` |
| Query.PagesCover | app.js:125-126 | every position of the list appears on the page its index gives |
| Query.Ordered | app.js:109-119 | a permutation of the filtered list, and the filtered list itself when no sort is asked |
| Query.Run | app.js:89-132 | `meta.total` is the filtered count; `meta.page` and `meta.perPage` are `PageNumber` and `PerPage` of the query's values, so clamped to `>= 1` and `1..100`; `data` is the page of the ordered list, at most `perPage` long, with only stored tasks that match every filter |
| Query.ThirdPageOfTwentyFive | app.js:122-129 | with no filters, 25 tasks read with `perPage=10&page=3` give the last 5 tasks and total 25 |

## Left out

- Express routing, middleware chaining, HTTP status line and JSON serialisation (app.js:1-6, 128-131, 151, 168). Handlers return a `Response` value instead.
- The 400 body's field names and messages are kept in `Validation.Name` and `Validation.Message` and rendered by `Validation.Entry`; a `FieldError` holds only its field, because the message is fixed by the field.
- The global error handler and console logging (app.js:182-193), and the listening port: these are I/O. An exception inside a handler is modelled as the `InternalError` response.
- `uuidv4()` (app.js:74): this is a foreign library call. It becomes an `id` parameter required to be fresh (never issued before), not a random value.
- The clock (app.js:70, 149, 166) becomes a `now` parameter, so no ordering between `createdAt` and `updatedAt` is modelled.
- `Date.parse` and `new Date(v).toISOString()` (app.js:33, 80, 147, 163) are abstracted as the `DateLib` parameter. A due date is normalised only through it, and the case where it throws leads to the 500 response.
- `toLowerCase` (app.js:102-104) is the `lower` parameter. Unicode case mapping is not modelled.
- `Number(...)` on the query string (app.js:122-123) is not modelled. `page` and `perPage` are optional integers, with a non-numeric value given as absent. Fractional values such as `2.5`, whose `slice` indices are then truncated, are not covered.
- Query.PageNumber and Query.PerPage: `Number` of `'Infinity'` or `'1e400'` is `Infinity`, which is numeric but neither an integer nor absent. The model has no such value, so it does not cover the `meta.page` (or `perPage` clamp) such a query yields.
- Strings are sequences of Unicode scalar values, so a body or query holding a lone UTF-16 surrogate (such as `"\ud800"`) cannot be represented.
- Query parameters repeated or nested (Express then yields arrays or objects) are not modelled. Each parameter is an optional string.
- Query.Property: a sort field naming an inherited property such as `constructor` or `toString` is not modelled. Such a field is truthy on every task, but the model treats every field other than the eight task fields as missing.
- Query.Sort: the order a JavaScript engine's `sort` produces with this inconsistent comparator is not fixed by the language. The model uses a stable insertion sort and proves only that the result is a permutation and that a list the comparator consistently finds in order (both ways round) is kept; on equal truthy keys, where the comparator answers -1 both ways ascending and +1 both ways descending, no order is promised.
- Query.StrLess: string `<` compares UTF-16 code units in JavaScript. The model compares code points, which differs only for characters outside the Basic Multilingual Plane.
- Request bodies that are not JSON objects are not modelled. The model starts from the five fields, each present or absent.
- Store.TaskStore.Get: the handler sends the stored object itself. Later updates to that object and aliasing between objects are not modelled, because records are values in a sequence.
- Js.Slice: for a negative `start`, or a negative `end` (each counted from the end of the list), the contract states only the length bound. The body follows ECMAScript's clamping for all inputs, and the list pipeline never passes a negative start.
