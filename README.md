# Judging-system REST core in Dafny

A model of the request-decision core of the automated judging system's HTTP server
(`server.js`). The server keeps five resources: event types, competitions, judges,
participants and scoring criteria. Each resource has list, create, update and delete
endpoints over a MySQL table. The model covers what each endpoint decides:

- whether a request body passes validation, and with which message it is refused;
- how the body's fields are normalised before they are stored (`trim`, `x?.trim() || null`,
  `x || default`);
- how a reference by name (`event_type`, `category`, `competition`) resolves to an id:
  the first row with that name, or null when none matches;
- what the store does to its table for an INSERT, an UPDATE or a DELETE, including the unique
  keys (`event_types.name`, `judges.email`);
- which response (status and JSON body) each outcome becomes, including `handleError`, the
  `ER_DUP_ENTRY` branches and `affectedRows === 0`;
- the list endpoints' LEFT JOINs, which show a referenced row's name in place of its id.

Modules, one per layer:

- `Js` (js.dfy): JavaScript's `String.prototype.trim` over the ECMAScript whitespace set,
  truthiness, and the `||` idioms.
- `Http` (http.dfy): resources, their fixed messages, the `Response` type with its status,
  and the reply mapping shared by every endpoint.
- `Store` (store.dfy): one generic `Table<R>` class. Its `rows` map from auto-increment id
  to row, with the creation and update stamps. Its methods are `Insert`, `Update`,
  `Delete` and the name lookup `Select`, each proved against a pure verdict function.
- `Validate` (validate.dfy): the request bodies, the checks, the stored records, and the
  round trip from a stored record back to a body that re-validates to the same fields,
  with the reference id being whatever the name sent back resolves to.
- `Handlers` (handlers.dfy): the five tables as the handlers use them, and every endpoint
  as a method over them. The source shows no schema. The unique keys (`event_types.name`,
  `judges.email`) are inferred from the only two handlers that expect `ER_DUP_ENTRY`
  (server.js:63, 272). That the other three tables have no unique column is an assumption.
- `Scenarios` (scenarios.dfy): whole request sequences on fresh tables, with the exact
  responses a client sees.

Store failures other than a duplicate key (a lost connection, a foreign-key refusal) are
not decided by the server. They enter as `Faults`, one for the name lookup and one for
the write. The clock (`NOW()`) enters as the parameter `now`.

Three consequences of the code's `||` tests and of resolving references by name:

- A `max_score` sent as the JSON number 0 is falsy, so `max_score || 100` turns it into
  100 and the criterion is accepted with maximum score 100. It is not refused (`Validate.ScoreRule`,
  `Validate.ScoreBoundaries`).
- A criteria request whose `competition` names no competition is not refused. It is
  stored with a null competition id. Only a missing or empty `competition` is refused
  (`Scenarios.CriteriaCompetitions`).
- Sending a listed participant, criterion or competition back with `PUT` does not always
  keep its link. The name shown is re-resolved to the first row with that name. Competition
  names are not unique, so a participant or criterion of the later of two competitions of one
  name moves to the earlier one. A reference whose row was deleted is listed as null: sending
  it back clears a participant's or competition's link, and a criterion is refused with
  "Competition is required" (`Handlers.RelinkRule`, `Handlers.ParticipantResend`,
  `Handlers.CriterionResend`, `Handlers.CompetitionResend`).

## Model

| member | source | states |
|---|---|---|
| Js.Trim | server.js:54 | the result is empty exactly when the input is all whitespace; it is the slice of the input that starts past the leading whitespace, with only whitespace after it, and neither of its ends is whitespace |
| Js.TextStart | server.js:54 | the position past the leading whitespace: everything before it is whitespace and the character there, if any, is not |
| Js.TextEnd | server.js:54 | the position before the trailing whitespace: everything after it is whitespace and the character before it, if any, is not |
| Js.TrimClean | server.js:60 | trimming a value with no whitespace at either end returns it unchanged |
| Js.TrimTwice | server.js:60 | trimming is idempotent |
| Js.BlankMeansAllSpace | server.js:54 | `!x \|\| x.trim() === ''` holds exactly when the field is absent or only whitespace (the empty string included) |
| Js.TrimmedOrNull | server.js:60 | `x?.trim() \|\| null` is null exactly for a blank field; otherwise it is the trimmed text, which is clean |
| Js.TextOrNull | server.js:164 | `date \|\| null` keeps a non-empty string as sent and turns absent or empty into null |
| Js.NumOrNull | server.js:375 | `age \|\| null` keeps a non-zero number and turns absent or 0 into null |
| Js.TextOr | server.js:269 | `status \|\| 'active'` keeps a non-empty string and otherwise gives the default, so a non-empty default always gives a non-empty result |
| Js.NumOr | server.js:60 | `max_participants \|\| 50` keeps a non-zero number and otherwise gives the default, 0 included, so a non-zero default always gives a non-zero result |
| Http.Response.Status | server.js:55 | every response is 200, 400, 404 or 500, and 200 exactly for a success |
| Http.HandleError | server.js:35-38 | a 500 carrying the handler's message and the store error's own message |
| Http.WriteErrorReply | server.js:62-67 | a store error on create or update is a 400 exactly when it is a duplicate entry on event types or judges, with that resource's duplicate message; otherwise a 500 with the handler's failure message |
| Http.CreateReply | server.js:61-70 | status 200 exactly when the INSERT succeeded, with the message naming the resource and the name as sent, and the new id |
| Http.UpdateReply | server.js:86-98 | an error first, then 404 exactly when no row was affected, otherwise 200 with the update message |
| Http.DeleteReply | server.js:106-113 | 500 exactly on a store error, 404 exactly when no row was removed, 200 exactly when one was |
| Http.Fetch | server.js:43-46 | a list query fails with the resource's fetch message exactly when the store fails; otherwise it returns the rows |
| Store.InsertVerdict | server.js:58-67 | an INSERT succeeds with the next id exactly when the store does not fail and no existing row holds the new row's unique key; it is a duplicate entry exactly when one does |
| Store.UpdateVerdict | server.js:83-95 | an UPDATE affects 1 row exactly when the id exists and no other row holds the changed row's unique key, and 0 rows exactly when the id does not exist; a row may keep its own key |
| Store.DeleteVerdict | server.js:106-110 | a DELETE removes 1 row exactly when the id exists and 0 when it does not, unless the store fails |
| Store.FirstNamedIsLeast | server.js:160 | the resolved id carries the name and no smaller id does; nothing is resolved exactly when no id in range carries the name |
| Store.Table.constructor | server.js:59 | an empty table whose next id is 1 |
| Store.Table.Insert | server.js:58-60 | the answer is the insert verdict on the old table; on success the new row, stamped with the creation time, is added under a previously unused id; on failure the rows stay as they were; the id counter advances whenever the statement reaches the store, a refused duplicate included; unique keys stay unique |
| Store.Table.Update | server.js:83-85 | the answer is the update verdict; on success only that row changes, to the new fields with its creation stamp kept and the update stamp set; otherwise nothing changes; unique keys stay unique |
| Store.Table.Delete | server.js:106 | the answer is the delete verdict; on success exactly that row is removed; otherwise nothing changes |
| Store.Table.Select | server.js:154-160 | returns, in ascending order, exactly the ids of the rows with that name, and its first element (or null) is the table's resolution of the name |
| Validate.EventTypeCheck | server.js:54-56 | the only refusal is "Name is required" |
| Validate.EventTypeRecord | server.js:58-60 | the stored event type has the trimmed name, the trimmed-or-null description and `max_participants \|\| 50`, and is well formed |
| Validate.EventTypeRoundTrip | server.js:54-60 | every well-formed stored event type, sent back as a body, passes validation and is stored unchanged |
| Validate.CompetitionCheck | server.js:148-150 | the only refusal is "Name and description are required" |
| Validate.CompetitionRecord | server.js:162-164 | the stored competition has the trimmed name and description, `date \|\| null`, the resolved event type id and the given status |
| Validate.CompetitionRoundTrip | server.js:148-164 | every well-formed stored competition, sent back as a body, passes validation and re-normalises to the same fields with the resolved event type id; the record is unchanged exactly when that id is the stored one |
| Validate.JudgeCheck | server.js:263-265 | the only refusal is "Name and email are required" |
| Validate.JudgeRecord | server.js:267-269 | the stored judge has the trimmed name and email, the trimmed-or-null expertise and phone, and `status \|\| 'active'` |
| Validate.JudgeRoundTrip | server.js:263-269 | every well-formed stored judge, sent back as a body, passes validation and is stored unchanged |
| Validate.ParticipantCheck | server.js:359-361 | the only refusal is "Name and course are required" |
| Validate.ParticipantRecord | server.js:373-375 | the stored participant has the trimmed name and course, the resolved competition id, trimmed-or-null contact and year level, `age \|\| null` and `status \|\| 'active'` |
| Validate.ParticipantRoundTrip | server.js:359-375 | every well-formed stored participant, sent back as a body, passes validation and re-normalises to the same fields with the resolved competition id; the record is unchanged exactly when that id is the stored one |
| Validate.CriterionCheck | server.js:492-524 | a refusal is one of the name, score-range and competition messages |
| Validate.CriterionRecord | server.js:511-513 | the stored criterion has the trimmed name, trimmed-or-null description, the defaulted score, `weight \|\| 1.00` and the resolved competition id |
| Validate.CriterionRoundTrip | server.js:492-513 | a well-formed stored criterion sent back as a body is refused with "Competition is required" exactly when no competition name is sent; otherwise it re-normalises to the same fields with the resolved competition id, and is unchanged exactly when that id is the stored one |
| Validate.ScoreRule | server.js:496-499 | with a name present, the score refusal happens exactly when `max_score \|\| 100` is at most 0 or above 100; an absent or 0 score becomes 100 and is never refused |
| Validate.CriterionCheckOrder | server.js:492-524 | each refusal holds exactly under its own condition and in order: name first, then score, then a missing competition; the request passes exactly when all three hold |
| Validate.ScoreBoundaries | server.js:496-499 | scores 1 and 100 pass, 101 and -1 are refused, and 0 and absent pass as 100 |
| Validate.RequiredFieldsRule | server.js:54-56 | for event types, competitions, judges and participants, a body passes exactly when each required field is present and not only whitespace (also lines 148-150, 263-265, 359-361) |
| Handlers.RefId | server.js:153-160 | `if (event_type)` and `result.length > 0 ? result[0].id : null`: no id for a falsy name, and any id it gives is of a row carrying the name |
| Handlers.RefIdMeaning | server.js:153-160 | a reference resolves to null exactly when no name was given or no row carries it; otherwise it resolves to the smallest id of a row carrying it, so a non-matching name never fails a request |
| Handlers.Lookup | server.js:153-160 | the lookup runs only for a truthy name; it fails the request with a 500 and the lookup message exactly when the store fails then, and otherwise yields the resolved id |
| Handlers.NewEventTypes | server.js:63-64 | an empty event-type table, referenced by name, whose unique key is the name |
| Handlers.NewCompetitions | server.js:366-377 | an empty competition table, referenced by name, with no unique key |
| Handlers.NewJudges | server.js:272-273 | an empty judge table whose unique key is the email |
| Handlers.NewParticipants | server.js:374 | an empty participant table with no unique key |
| Handlers.NewCriteria | server.js:512 | an empty criteria table with no unique key |
| Handlers.CreateRow | server.js:58-70 | the response is the create reply to the insert verdict; the table gains the row exactly when the response is a creation; the id counter advances exactly when the store does not fail |
| Handlers.UpdateRow | server.js:83-99 | the response is the update reply to the update verdict; the row changes exactly when the response is a success; the id counter does not move |
| Handlers.Delete | server.js:102-114 | 200 exactly when the id existed and the store did not fail, 404 exactly when it did not exist, and the row is gone exactly on 200 (the same for all five resources: lines 235-247, 311-323, 446-458, 570-582) |
| Handlers.CreateEventType | server.js:50-72 | a 400 with the validation message before anything is stored; otherwise the reply to inserting the normalised event type; without a store fault the answer is "Event type name already exists" exactly when a stored event type already has the trimmed name; the id counter advances exactly when the insert reaches the store |
| Handlers.UpdateEventType | server.js:74-100 | a 400 before anything changes; otherwise the reply to replacing the row by the normalised event type, with 404 for a missing id; for an existing id without a store fault, "Event type name already exists" exactly when another stored event type has the trimmed name |
| Handlers.ListEventTypes | server.js:41-48 | every stored event type, or exactly on a store fault a 500 with "Failed to fetch event types" and the store's message |
| Handlers.CreateCompetition | server.js:144-184 | validation first; a failed event-type lookup is a 500 and stores nothing; otherwise the competition is inserted with the resolved event type id (null for a missing or unknown name) and status 'active' |
| Handlers.UpdateCompetition | server.js:186-233 | as the create, but an update in which the event type id is re-resolved (null when no event type is sent) and the row keeps its status |
| Handlers.CompetitionViews | server.js:119-137 | one view per competition with its own fields; the event type name is present exactly when its id refers to a stored event type, and it is that event type's name |
| Handlers.ListCompetitions | server.js:117-142 | exactly the joined views of the stored competitions, or exactly on a store fault a 500 with "Failed to fetch competitions" and the store's message |
| Handlers.CreateJudge | server.js:259-281 | a 400 with the validation message; otherwise the reply to inserting the normalised judge; without a store fault the answer is "Email address already exists" exactly when a stored judge already has the trimmed email; the id counter advances exactly when the insert reaches the store |
| Handlers.UpdateJudge | server.js:283-309 | a 400 before anything changes; otherwise the reply to replacing the row by the normalised judge, with a missing id a 404; for an existing id without a store fault, "Email address already exists" exactly when another stored judge has the trimmed email |
| Handlers.ListJudges | server.js:250-257 | every stored judge, or exactly on a store fault a 500 with "Failed to fetch judges" and the store's message |
| Handlers.CreateParticipant | server.js:355-395 | validation first; a failed competition lookup is a 500 and stores nothing; otherwise the participant is inserted with the competition resolved from `category` |
| Handlers.UpdateParticipant | server.js:397-444 | as the create, but an update with a 404 for a missing id, and the competition link cleared when no category is sent |
| Handlers.ParticipantViews | server.js:328-348 | one view per participant; `category` is present exactly when its competition id refers to a stored competition, and it is that competition's name |
| Handlers.ListParticipants | server.js:326-353 | exactly the joined views of the stored participants, or exactly on a store fault a 500 with "Failed to fetch participants" and the store's message |
| Handlers.CreateCriterion | server.js:488-525 | every check, the competition requirement included, comes before the lookup; a failed lookup is a 500; otherwise the criterion is inserted with the resolved (possibly null) competition id |
| Handlers.UpdateCriterion | server.js:527-568 | as the create, but an update with a 404 for a missing id |
| Handlers.CriterionViews | server.js:463-481 | one view per criterion; `competition` is present exactly when its competition id refers to a stored competition, and it is that competition's name |
| Handlers.ListCriteria | server.js:461-486 | exactly the joined views of the stored criteria, or exactly on a store fault a 500 with "Failed to fetch criteria" and the store's message |
| Handlers.RelinkRule | server.js:407-414 | re-resolving the name a listing shows for a reference gives that reference back exactly when it is null or its row has a non-empty name that no smaller id carries; a shared name moves it to a smaller id |
| Handlers.CompetitionResend | server.js:191-207 | a listed competition sent back passes validation and is stored with its own fields; its event type is kept exactly when it is null or refers to a stored event type with a non-empty name, so a deleted event type is cleared |
| Handlers.ParticipantResend | server.js:402-414 | a listed participant sent back passes validation and is stored with its own fields; its competition is kept exactly when `KeepsLink` holds, and otherwise cleared or moved to the first competition of that name |
| Handlers.CriterionResend | server.js:532-566 | a listed criterion sent back is refused with "Competition is required" exactly when its competition is null or gone; otherwise it is stored with its own fields and its competition is kept exactly when `KeepsLink` holds |
| Scenarios.DuplicateJudgeEmail | server.js:259-281 | a first judge is created with id 1 and the confirmation naming them; a second judge with the same email gets "Email address already exists" and is not stored, but uses up id 2, so a third judge is created with id 3 |
| Scenarios.ParticipantCategories | server.js:364-375 | a participant whose category names no competition is stored without one; one whose category names a competition is linked to it |
| Scenarios.CriteriaCompetitions | server.js:502-524 | criteria without a competition get "Competition is required" and are not stored; criteria naming an unknown competition are stored with none |
| Scenarios.EventTypeLifecycle | server.js:83-113 | updating an id never issued is "Event type not found"; deleting a row succeeds once and is a 404 the second time |

## Left out

- The Express application, CORS, the JSON and form body parsers, `PORT` and `listen`: the
  model starts from a parsed body and ends at a response value.
- The MySQL connection and the asynchrony of its callbacks. Each request is modelled as if
  it ran alone, so the race between a name lookup and the write that follows it is not
  modelled.
- Store failures other than a duplicate key: they are the parameters `Faults`, not modelled
  causes.
- `NOW()`: the parameter `now`.
- `ORDER BY` in the list queries: a listing is a map from id to row, so it has no order.
- `console.log` and `console.error`.
- Store.DupMessage: the text of MySQL's duplicate-entry error is approximated; no handler
  shows it to the client.
- Store.FirstNamedIsLeast: a `SELECT` without `ORDER BY` has no specified order; the model
  takes the first matching row to be the one with the smallest id.
- Store.Table.Select: names match exactly; MySQL's case- and trailing-space-insensitive
  collation is not modelled, for lookups or unique keys.
- Validate.CriterionRecord: `weight` is a decimal in the source; the model keeps it in
  hundredths as an integer (default 100, that is 1.00). A fractional `max_score` is not
  modelled: scores are integers.
- Body fields of the wrong JSON type (a number where a string is trimmed) make the source
  throw; the model types string fields as strings and numeric fields as integers.
- Validate.ScoreRule: numeric fields sent as strings (every field of a urlencoded body,
  server.js:9, or a JSON `"0"`) are not modelled. The string `"0"` is truthy, so
  `max_score: "0"` is kept and refused by `score <= 0`, and `max_participants: "0"` or
  `age: "0"` is stored as 0 rather than 50 or null; the model's 0 is the JSON number.
- Store.Table.Insert: the storage engine and schema are not shown; the model follows
  InnoDB, whose AUTO_INCREMENT uses an id up on an INSERT refused as a duplicate (so
  `Scenarios.DuplicateJudgeEmail`'s third judge gets id 3). Another engine or setting
  could give id 2. A write fault leaves the id counter as it was; whether a failed
  statement other than a duplicate uses up an AUTO_INCREMENT value is not modelled.
- Handlers.Delete: the schema is not shown, so the model assumes no foreign-key cascade
  or set-null on DELETE; only the table deleted from changes. A foreign-key refusal is a
  store fault.
- Ids in the path are natural numbers; a non-numeric id, which the store would coerce, is
  not modelled.
