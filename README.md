# Incident tracker: the stores, the request guards and the list logic, in Dafny

The application is a small incident-tracking web app. Two in-memory stores keep the data:
- an array of incidents with an id counter;
- an array of tasks with an id counter.

REST route handlers check request bodies before calling the stores. The pages filter, count and summarise the fetched incident list, and a client-side todo list keeps its own state. This project models that logic and proves what each part promises.

| Dafny file | module | source |
|---|---|---|
| `incidents_store.dfy` | `IncidentsStore` | `lib/incidents-store.ts` |
| `tasks_store.dfy` | `TasksStore` | `lib/tasks-store.ts` |
| `incidents_route.dfy` | `IncidentsRoute` | `app/api/incidents/route.ts` |
| `tasks_route.dfy` | `TasksRoute` | `app/api/tasks/route.ts` |
| `incident_filters.dfy` | `IncidentFilters` | `app/incidents/page.tsx` (search, filters, filter count, reset) |
| `dashboards.dfy` | `Dashboards` | `app/dashboards/page.tsx` (bucket counts, resolution-chart selection) |
| `todo_list.dfy` | `TodoList` | `components/todo-list.tsx` |
| `request_body.dfy` | `RequestBody` | the decoded JSON body and the shared "blank field" guard |
| `text.dfy` | `Text` | the JavaScript string builtins used: `trim`, `toLowerCase`, `includes`, `toString`, `substring` |
| `sequences.dfy`, `wrappers.dfy` | `Sequences`, `Wrappers` | subsequence relation and `splice(k, 1)`; `Option` |

## How the model is built

**Stores.** Each store is a class. It holds the list as a `seq` field, plus `nextId` and a ghost set `issued` of every id ever handed out. The invariant `Valid()` says three things:
- ids are distinct;
- every stored id was issued;
- every issued id is below `nextId`.

The constructor builds the seed state, and every method preserves `Valid()`. `AddIncident` and `AddTask` promise the new id was never issued before, so a deleted id is never reused. Each method's new list is stated as a function of the old one (`WithStatus`, `WithUpdate`, `Without`, `Toggled`), and lemmas prove what those functions do:
- only the addressed record changes;
- ids and order are kept;
- a later lookup finds the new record, or finds nothing.

**Values.** Records are datatypes, so the store hands out copies. Clock readings and `Date.now()` become parameters of type `Millis`, an integer count of milliseconds. `addIncident` reads the clock twice, so it takes two of them.

**Routes.** A request body is `Unparsable` (decoding threw) or a set of fields. Each field is `Absent`, `Str(s)` or `NonString`. `CheckPost` returns `Reject(message)` or `Accept(...)`, with the guards in the source's order. `Post` calls the store only on `Accept`. `GET` returns the store's list as it is.

**Incident list filter.** `FilteredIncidents` is the page's chain of `filter` steps, without the date steps. It is proved to equal one filter by the conjunction of the active criteria (`KeepAll`). It is also proved to keep exactly the incidents that the reference predicate `Admits` accepts, in their original order. `Admits` is written independently, with one conjunct per filter. From these follow three results:
- the result is a subsequence of the input;
- the result holds exactly the admitted incidents;
- the filter is idempotent.

**Dashboard counts.** These are loops over a counts map, proved against the recursive count `CountWith`. The four buckets always come in display order.

**Todo list.** Each handler is a pure function from the old list to the new one.

Some facts about the program that shape the model:
- An incident has no timeline and no severity field.
- A lookup, update or delete of a missing id returns `null` or `false`; it does not raise an error.
- `addIncident` does not validate its arguments; only the route handler does.
- `createdAt` and `updatedAt` come from two separate clock readings, so they need not be equal or ordered.

## Model

| member | source | states |
|---|---|---|
| IncidentsStore.IndexOfId | lib/incidents-store.ts:140 | `findIndex`: the first position whose id matches, or -1 exactly when no record has the id |
| IncidentsStore.Find | lib/incidents-store.ts:89-91 | `find(...)`, or `null` when it finds nothing: `None` exactly when no record has the id; otherwise the first stored record carrying the id |
| IncidentsStore.IndexOfIdSameIds | lib/incidents-store.ts:121 | the lookup depends only on the ids, so an update that keeps ids keeps every lookup |
| IncidentsStore.NewIncident | lib/incidents-store.ts:101-112 | a new record always starts `open`; every other field is the argument of the same name, and `createdAt` and `updatedAt` are the two clock readings |
| IncidentsStore.ApplyUpdate | lib/incidents-store.ts:134-135 | the merge overwrites exactly the supplied fields among the seven updatable ones, keeps `id` and `createdAt`, and sets `updatedAt` to the clock reading |
| IncidentsStore.WithStatus | lib/incidents-store.ts:121-124 | a status update keeps the list's length and every record's id |
| IncidentsStore.WithUpdate | lib/incidents-store.ts:132-135 | a general update keeps the list's length and every record's id |
| IncidentsStore.AddThenFind | lib/incidents-store.ts:89-91 | after appending a record with a fresh id, `getIncident` finds it, and every other lookup is unchanged |
| IncidentsStore.StatusUpdateIsUpdate | lib/incidents-store.ts:117-137 | `updateIncidentStatus` is `updateIncident` with a partial record that carries only the status |
| IncidentsStore.FindAfterUpdate | lib/incidents-store.ts:128-137 | after an update, the id leads to the merged record; a missing id stays missing |
| IncidentsStore.UpdateFrame | lib/incidents-store.ts:132-135 | an update changes only the record with the id; every other record is untouched |
| IncidentsStore.ApplyUpdateIdempotent | lib/incidents-store.ts:134-135 | merging the same partial record twice at the same time equals merging it once |
| IncidentsStore.Without | lib/incidents-store.ts:139-144 | deleting an absent id leaves the list as it is; deleting a present one shortens it by exactly one and leaves only records that were already there |
| IncidentsStore.SeedIncidents | lib/incidents-store.ts:26-81 | three seed records with ids 1, 2, 3; each started no later than it was created, and was created no later than its last update, which is not in the future; only the resolved one has an end time |
| Sequences.SpliceIsSubsequence | lib/incidents-store.ts:142 | `splice(k, 1)` leaves the other elements in their order |
| IncidentsStore.SpliceContents | lib/incidents-store.ts:142 | with distinct ids, the splice removes exactly the record at that position and keeps ids distinct |
| IncidentsStore.DeleteRemovesOnlyId | lib/incidents-store.ts:139-144 | deleting an absent id changes nothing; deleting a present id shortens the list by one, removes exactly that record, and keeps order and distinct ids |
| IncidentsStore.FindAfterDelete | lib/incidents-store.ts:139-144 | after a delete, `getIncident(id)` finds nothing and a second delete changes nothing |
| IncidentsStore.IncidentStore.constructor | lib/incidents-store.ts:26-83 | the three seed records with ids 1–3 and `nextId = 4` satisfy the invariant |
| IncidentsStore.IncidentStore.GetIncidents | lib/incidents-store.ts:85-87 | returns the stored list itself and changes nothing |
| IncidentsStore.IncidentStore.GetIncident | lib/incidents-store.ts:89-91 | returns a record with the id when one is stored, `None` exactly when none is; changes nothing |
| IncidentsStore.IncidentStore.AddIncident | lib/incidents-store.ts:93-115 | appends one record with the old `nextId`, status open and the given fields; `nextId` grows by one; the id was never issued before; the invariant holds |
| IncidentsStore.IncidentStore.UpdateIncidentStatus | lib/incidents-store.ts:117-126 | on an absent id, returns `None` and changes nothing; otherwise sets only that record's status and `updatedAt` and returns it |
| IncidentsStore.IncidentStore.UpdateIncident | lib/incidents-store.ts:128-137 | on an absent id, returns `None` and changes nothing; otherwise merges the update into that record only and returns the merged record |
| IncidentsStore.IncidentStore.DeleteIncident | lib/incidents-store.ts:139-144 | returns whether the id was present; splices that record out; `nextId` and the issued ids are untouched, so the id is never reissued |
| TasksStore.IndexOfId | lib/tasks-store.ts:39 | `findIndex`: the first position whose id matches, or -1 exactly when no task has the id |
| TasksStore.Toggled | lib/tasks-store.ts:31-35 | toggling keeps the length, and every task's id and title |
| TasksStore.ToggleFrame | lib/tasks-store.ts:31-35 | with distinct ids, a toggle negates `completed` on the task with the id and no other; an absent id changes nothing |
| TasksStore.ToggleTwice | lib/tasks-store.ts:34 | toggling the same id twice restores the list |
| TasksStore.Without | lib/tasks-store.ts:38-43 | deleting an absent id leaves the list as it is; deleting a present one shortens it by exactly one and leaves only tasks that were already there |
| TasksStore.SeedTasks | lib/tasks-store.ts:10-13 | two seed tasks with ids 1 and 2 |
| TasksStore.SpliceContents | lib/tasks-store.ts:41 | with distinct ids, the splice removes exactly the task at that position and keeps ids distinct |
| TasksStore.DeleteRemovesOnlyId | lib/tasks-store.ts:38-43 | deleting an absent id changes nothing; deleting a present id removes exactly that task and keeps order and distinct ids |
| TasksStore.TaskStore.constructor | lib/tasks-store.ts:10-15 | the two seed tasks with ids 1 and 2 and `nextId = 3` satisfy the invariant |
| TasksStore.TaskStore.GetTasks | lib/tasks-store.ts:17-19 | returns the stored list in insertion order and changes nothing |
| TasksStore.TaskStore.AddTask | lib/tasks-store.ts:21-29 | appends `{id: old nextId, title, completed: false}`; `nextId` grows by one; the id was never issued before |
| TasksStore.TaskStore.ToggleTask | lib/tasks-store.ts:31-36 | returns `None` exactly when no task has the id; otherwise flips that task and returns it |
| TasksStore.TaskStore.DeleteTask | lib/tasks-store.ts:38-43 | returns whether the id was present; afterwards no task has it; the order of the rest and `nextId` are kept |
| Text.TrimStart | app/api/tasks/route.ts:15 | leading white space goes: the result is the suffix of the input that starts with a non-space character |
| Text.TrimEnd | app/api/tasks/route.ts:15 | trailing white space goes: the result is the prefix of the input that ends with a non-space character |
| Text.Trim | app/api/tasks/route.ts:15 | `trim()` returns the slice of the string between leading and trailing white space; that slice is empty or starts and ends with a non-space character |
| Text.TrimBlank | app/api/tasks/route.ts:15 | `trim() === ''` holds exactly for strings made only of white space |
| Text.TrimIdempotent | app/api/tasks/route.ts:22 | trimming a trimmed string changes nothing |
| Text.ToLower | app/incidents/page.tsx:133 | lower-casing keeps the length and folds each character on its own |
| Text.Contains | app/incidents/page.tsx:134-139 | `includes` finds a needle only if it fits in the haystack, and always finds the empty needle |
| Text.DecimalString | app/incidents/page.tsx:137 | `toString()` of an integer is non-empty, starts with `-` exactly for negative numbers, and is digits otherwise |
| Text.NatDigits | app/incidents/page.tsx:137 | an id's decimal form is non-empty, all digits, and starts with `0` only for zero |
| Text.NatDigitsValue | app/incidents/page.tsx:137 | the decimal digits of a natural number, read back most significant first, give that number |
| Text.DecimalStringValue | app/incidents/page.tsx:137 | `toString()` of any integer, read back with its sign, gives the integer: the search matches the id's exact decimal spelling |
| Text.DecimalIsTrimmedLower | app/incidents/page.tsx:132-137 | an id's decimal form survives `trim` and `toLowerCase` unchanged |
| Text.Take | app/dashboards/page.tsx:190 | `substring(0, n)` is the prefix of length `n`, or the whole string when it is shorter |
| RequestBody.Blank | app/api/incidents/route.ts:15 | the guard fails exactly for a missing or non-string field and for a string that trims to empty; the separate falsy test for `''` adds nothing |
| RequestBody.BlankIff | app/api/incidents/route.ts:15 | a field passes the guard exactly when it is a string with a non-space character |
| RequestBody.TrimmedNonBlank | app/api/incidents/route.ts:15-37 | the trimmed value of a field that passed the guard is non-empty and already trimmed |
| IncidentsRoute.PriorityFromName | app/api/incidents/route.ts:29-30 | only the four listed names are accepted, each as the priority it names |
| IncidentsRoute.PriorityNameRoundTrip | app/api/incidents/route.ts:29-30 | every priority's name is accepted and read back as that priority |
| IncidentsRoute.BadPriority | app/api/incidents/route.ts:29-30 | the priority passes exactly when it is a string among `low`, `medium`, `high`, `critical` |
| IncidentsRoute.CheckPost | app/api/incidents/route.ts:13-44 | guards in order: undecodable body, then blank title, then blank description, then a bad priority, each with its message; accepted exactly when all pass, with trimmed title and description |
| IncidentsRoute.AcceptedTextIsTrimmed | app/api/incidents/route.ts:37 | the accepted title and description are non-empty and already trimmed |
| IncidentsRoute.StoreCallAsWritten | app/api/incidents/route.ts:37 | the three-argument store call happens exactly on acceptance, and leaves `sourceComponents` and `incidentStartTime` undefined |
| IncidentsRoute.ExampleBodyAccepted | app/api/incidents/route.ts:13-35 | an ordinary body with title, description and priority `high` passes every guard |
| IncidentsRoute.AsWrittenCallLeavesFieldsUndefined | app/api/incidents/route.ts:37 | for that ordinary body, the store call as written passes neither a source-component list nor a start time |
| IncidentsRoute.StoreCall | lib/incidents-store.ts:93-100 | the corrected call happens exactly on acceptance and supplies every parameter the store declares: an empty component list, the request time as start, and no end |
| IncidentsRoute.StoreCallsAgree | app/api/incidents/route.ts:37 | the corrected call differs from the written one only in the two missing arguments |
| IncidentsRoute.Get | app/api/incidents/route.ts:5-8 | status 200 with exactly the store's current list |
| IncidentsRoute.Post | app/api/incidents/route.ts:11-45 | a rejected body gets 400 with its message and the store is unchanged; otherwise 201 with exactly the record of the corrected store call (see Findings) appended: `NewIncident` under the old `nextId` with the trimmed, non-empty fields, no source components, the request time as start, no end, and both timestamps from the clock; `nextId` grows by one |
| TasksRoute.CheckPost | app/api/tasks/route.ts:13-29 | accepted exactly when the body decodes and the title is a non-blank string; the reject message is "Invalid request body" or "Title is required"; the accepted title is trimmed |
| TasksRoute.AcceptedTitleIsTrimmed | app/api/tasks/route.ts:15-22 | an accepted title is non-empty and already trimmed |
| TasksRoute.Get | app/api/tasks/route.ts:5-8 | status 200 with exactly the store's current list |
| TasksRoute.Post | app/api/tasks/route.ts:11-30 | a rejected body gets 400 and the store is unchanged; otherwise 201 with `{id: old nextId, title: trimmed title, completed: false}` appended, whose title is never blank; `nextId` grows by one |
| IncidentFilters.Keep | app/incidents/page.tsx:134-139 | one `filter` step is a subsequence holding only incidents that meet its criterion, as many as meet it, so it keeps every one of them, in order |
| IncidentFilters.KeepAll | app/incidents/page.tsx:128-180 | the reference filter is a subsequence holding only incidents that meet every criterion, as many as meet them all, so it keeps every one of them, in order |
| IncidentFilters.FilteredIncidents | app/incidents/page.tsx:128-180 | the page's `filteredIncidents` without the date steps never adds an incident and never lengthens the list |
| IncidentFilters.KeepAllNone | app/incidents/page.tsx:129 | with no active criterion, the whole list is kept |
| IncidentFilters.KeepAfterKeepAll | app/incidents/page.tsx:128-180 | one more `filter` step adds its criterion to the conjunction |
| IncidentFilters.ChainOfFour | app/incidents/page.tsx:132-177 | four optional steps in a row filter by the conjunction of their criteria |
| IncidentFilters.StepStatus | app/incidents/page.tsx:143-145 | the status step runs only when the filter is not `'all'`, and keeps equal statuses |
| IncidentFilters.StepPriority | app/incidents/page.tsx:148-152 | the priority step runs only when the filter is not `'all'`, and keeps equal priorities |
| IncidentFilters.FilteredIsKeepAll | app/incidents/page.tsx:128-180 | the page's step-by-step chain equals one filter by the conjunction of the active criteria |
| IncidentFilters.HoldsSearchCriteria | app/incidents/page.tsx:132-139 | a non-blank search matches the lower-cased untrimmed query in the title, the decimal id or the description; a blank one keeps everything |
| IncidentFilters.HoldsComponentCriteria | app/incidents/page.tsx:170-177 | a non-blank component query keeps an incident exactly when some component name contains it, so an incident without components is dropped |
| IncidentFilters.HoldsStatusCriteria | app/incidents/page.tsx:143-145 | the status criterion holds exactly for the selected status |
| IncidentFilters.HoldsPriorityCriteria | app/incidents/page.tsx:148-152 | the priority criterion holds exactly for the selected priority |
| IncidentFilters.AdmitsIffHoldsAll | app/incidents/page.tsx:128-180 | an incident meets every active criterion exactly when each filter's own condition admits it |
| IncidentFilters.FilteredIsAdmittedSubsequence | app/incidents/page.tsx:128-180 | the result is a subsequence of the list, and holds exactly the incidents every active filter admits |
| IncidentFilters.KeepAllUnchanged | app/incidents/page.tsx:128-180 | filtering incidents that already meet the criteria changes nothing |
| IncidentFilters.FilteredIdempotent | app/incidents/page.tsx:128-180 | applying the same search and filters to the result returns it unchanged |
| IncidentFilters.DefaultsKeepEverything | app/incidents/page.tsx:132-170 | a blank search with every filter at its default returns the input |
| IncidentFilters.SearchByIdFindsIt | app/incidents/page.tsx:137 | searching for an incident's id, with no other filter, keeps that incident |
| IncidentFilters.ClearedFilters | app/incidents/page.tsx:192-200 | after `clearFilters`, the active-filter count is 0 |
| IncidentFilters.ActiveFilterCount | app/incidents/page.tsx:182-190 | the count is between 0 and 5 |
| IncidentFilters.ActiveFilterCountZeroIff | app/incidents/page.tsx:182-190 | the count is 0 exactly when every filter field is at its default |
| IncidentFilters.ActiveFiltersAreCriteria | app/incidents/page.tsx:143-190 | without dates, each counted filter adds exactly one step to the chain |
| Dashboards.FromStore | lib/incidents-store.ts:4-5 | a stored incident's status and priority are one of the four names each |
| Dashboards.CountWith | app/dashboards/page.tsx:99-103 | a count never exceeds the number of incidents |
| Dashboards.CountKeys | app/dashboards/page.tsx:92-103 | the `forEach` loop leaves each of the fixed keys holding the number of incidents with exactly that value; other values are skipped |
| Dashboards.StatusBuckets | app/dashboards/page.tsx:105-118 | four buckets named Open, In Progress, Resolved, Closed, in that order, none counting more than the list holds |
| Dashboards.PriorityBuckets | app/dashboards/page.tsx:135-144 | four buckets named Critical, High, Medium, Low, in that order, none counting more than the list holds |
| Dashboards.IncidentsByStatus | app/dashboards/page.tsx:91-119 | four buckets, in the order Open, In Progress, Resolved, Closed, with their colours, each counting exact status matches |
| Dashboards.IncidentsByPriority | app/dashboards/page.tsx:121-145 | four buckets, in the order Critical, High, Medium, Low, with their colours, each counting exact priority matches |
| Dashboards.FourKeysSum | app/dashboards/page.tsx:99-103 | four distinct keys count each incident at most once, and every incident exactly when each carries one of them |
| Dashboards.StatusBucketsSum | app/dashboards/page.tsx:99-103 | the status buckets sum to at most the list length, with equality exactly when every status is one of the four |
| Dashboards.PriorityBucketsSum | app/dashboards/page.tsx:129-133 | the priority buckets sum to at most the list length, with equality exactly when every priority is one of the four |
| Dashboards.StoredIncidentsAllCounted | app/dashboards/page.tsx:99-133 | incidents whose status and priority are the typed values are all counted, in both charts |
| Dashboards.ResolvedOrClosed | app/dashboards/page.tsx:180-182 | the selection keeps, in order, exactly the resolved or closed incidents, as many as the two status counts together |
| Dashboards.TitleLabel | app/dashboards/page.tsx:190 | the label is the title's first 20 characters (all of it if shorter) followed by `...` |
| Dashboards.ResolutionTimeData | app/dashboards/page.tsx:184-194 | one entry per selected incident, in order, with its label and priority |
| Dashboards.ResolutionRowsMatchBuckets | app/dashboards/page.tsx:179-195 | the resolution chart has as many rows as the Resolved and Closed buckets together |
| TodoList.Initial | components/todo-list.tsx:23-24 | the completed and total counts both start at 0, so the header shows its placeholder; with the text box empty an add changes nothing |
| TodoList.AddTodo | components/todo-list.tsx:26-37 | blank input changes nothing; otherwise one todo with the trimmed text, `completed = false` and the clock's id is appended, and the text box is cleared |
| TodoList.ToggleTodo | components/todo-list.tsx:39-45 | toggling keeps length, order, ids and texts |
| TodoList.DeleteTodo | components/todo-list.tsx:47-49 | the result is a subsequence holding exactly the todos without the id, each as many times as before |
| TodoList.CompletedCount | components/todo-list.tsx:57 | the completed count never exceeds the number of todos |
| TodoList.TotalCount | components/todo-list.tsx:58 | the total shown is never below the completed count shown beside it |
| TodoList.ToggleFlipsOnlyId | components/todo-list.tsx:39-45 | toggling flips `completed` on every todo with the id and on no other; an absent id changes nothing |
| TodoList.ToggleTwice | components/todo-list.tsx:39-45 | toggling the same id twice restores the list |
| TodoList.DeleteIdempotent | components/todo-list.tsx:47-49 | after a delete no todo carries the id, so a second delete changes nothing |
| TodoList.DeleteAbsent | components/todo-list.tsx:47-49 | deleting an id no todo carries changes nothing |
| TodoList.AddThenDelete | components/todo-list.tsx:26-49 | adding a todo under a fresh id and then deleting that id restores the list |
| TodoList.AddCounts | components/todo-list.tsx:26-58 | an add raises the total by one and leaves the completed count alone |
| TodoList.ToggleOneCount | components/todo-list.tsx:39-57 | toggling an id held by exactly one todo moves the completed count by exactly one |

## Left out

- Rendering, React state hooks, `fetch`, `confirm` and logging: the pages are modelled only through the values they compute.
- `NextResponse` and `request.json()`: a response is a status and a payload. Decoding is reduced to "failed" or a set of fields, each missing, a string, or another JSON value.
- Timestamps: ISO strings are left out. Times are integer milliseconds passed in as parameters, so `createdAt`, `updatedAt` and the seed offsets are plain integers.
- IncidentFilters.FilteredIncidents: the two date-range steps (app/incidents/page.tsx:155-167) are not modelled, because they depend on local time zones and date parsing. The subsequence and idempotence results still hold with them, but they are not proved.
- Date-based charts (`incidentsByDate`, `statusTrendData`), resolution hours and percentage labels are left out. They use locale date strings and floating point.
- Dashboards.ResolutionTimeData: each entry carries the label and the priority but not the hours figure, which is floating point.
- Text.ToLower: only ASCII letters are folded. `includes`, `substring` and `trim` work on characters, not UTF-16 code units.
- JavaScript numbers are modelled as unbounded integers. Ids stay far below 2^53 in practice.
- Records returned by the stores are copies in the model. In the source, the caller gets the stored object itself, so later changes made through it are not modelled.
- `Object.assign` copying keys outside the seven updatable fields is left out. An update that sets a field to `undefined` is modelled as not supplying it.
- IncidentsRoute.Post: it uses the corrected store call, which passes an empty source-component list and the request time as the start. The route as written leaves both fields `undefined`. That version is modelled separately by `IncidentsRoute.StoreCallAsWritten` (see Findings).
- Dashboards.FromStore: status and priority are assumed to be the typed values. The `PATCH /api/incidents/[id]` handler passes the raw body values to the store (app/api/incidents/[id]/route.ts:51, :62), so the store can hold any status or priority string.
- Dashboards.StoredIncidentsAllCounted: holds only under that same assumption. A stored status or priority outside the four names is left out of every bucket, as `Dashboards.StatusBucketsSum` and `Dashboards.PriorityBucketsSum` show.
- Requests run one at a time: the shared module state is not modelled under concurrency.
- The `in` checks in the dashboard count only the four listed keys. Inherited property names such as `toString` are not modelled.
- The todo list's ids come from `Date.now()`. The model takes the clock reading as a parameter and does not assume ids are unique; `TodoList.AddThenDelete` requires a fresh id.
- The reports page, the home page, the sidebar and the layout are not part of this model. The `/api/incidents/[id]` route is not part of this model either.

## Findings

| source | as written | input that shows it | evidently intended | confidence | as-written member | corrected member |
|---|---|---|---|---|---|---|
| app/api/incidents/route.ts:37 | `addIncident(title.trim(), description.trim(), priority)` passes three arguments, but the store declares `sourceComponents` and `incidentStartTime` as required (lib/incidents-store.ts:93-100). The new incident stores both as `undefined`, so the list page's component filter would call `.some` on `undefined` (app/incidents/page.tsx:173). The list page also calls `.map` on the same field for every incident it renders (app/incidents/page.tsx:537), so the page fails as soon as such an incident is shown. | the body `{"title": "Server down", "description": "Every request fails", "priority": "high"}` | the store receives a source-component list (empty) and a start time (the request time) | high, not executed | IncidentsRoute.AsWrittenCallLeavesFieldsUndefined | IncidentsRoute.StoreCall |
