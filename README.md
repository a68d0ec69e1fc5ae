# CollabSync core, modelled in Dafny

CollabSync is a real-time collaboration workspace: an Express/Postgres API
server with socket.io relays, and a React client. This project models the
parts of it that carry behaviour of their own and proves what they promise:

- **Authentication over the `users` table** in the three server builds:
  - the compiled server `backend/dist/server.js`;
  - its older TypeScript source `backend/server.ts`;
  - the minimal `backend/simple-server.cjs`.

  Each build has `/auth/register`, `/auth/login`, and the bearer-token gate
  `authenticateToken` where the build has one. The table is a class holding a
  map from the normalised email to the row (`UsersDb.UsersTable`). Each
  handler is a function over the table (`Register`, `Login`) together with a
  method that performs the same steps against the table (`RegisterHandler`,
  `LoginHandler`).
- **The server's pure helpers:**
  - the CORS origin rule;
  - `generateUniqueId`;
  - the socket topic names and the payloads relayed on them;
  - the `/notifications/count` default;
  - the validation step of `/users`.
- **The zod input schemas** of `backend/dist/schema.js` and
  `backend/schema.ts`. They are written as data for a small interpreter of that
  part of zod (`Schema.Parse`), with lemmas saying exactly what each schema
  accepts and produces.
- **The database seed script `backend/initdb.js`.** It is a lookahead split of
  the SQL file, a filter of blank pieces, and the transaction loop on a pooled
  client.
- **The kanban board view:**
  - grouping tasks into status columns;
  - the splice-based drag and drop;
  - the create-task form.
- **The client's global store:**
  - every action except `logout_user`, each a method of the `Store.AppStore`
    class that is specified by a function on the state;
  - the failure-message classifier;
  - the persisted projection `partialize`.
- **The documents view:** the search filter, the create dialog and the card
  preview.

Several things are parameters of the model:
- JWT signing and verification;
- the clock;
- `Math.random`;
- the outcome of each SQL query (connection failures);
- zod's e-mail, URL and date checks;
- the runtime's text for numbers the code interpolates.

The helper datatype `Auth.Env` bundles them for the handlers.

Four behaviours of the source are stated and proved as they are written:
- The TypeScript build validates `password_hash` but inserts `password`. A
  body without `password` therefore stores `NULL` (the column is assumed to accept it), and a later login that
  sends `password: null` is let in (`TsAuth.NullPasswordLogin`).
- The minimal build never checks the password's type. A numeric password
  registers and the driver stores its text. A login that sends the password
  as a number again, as at registration, is always refused
  (`SimpleAuth.NumericPasswordLocksOut`), while one that sends that text as a
  string is let in (`SimpleAuth.NumericPasswordTextLogsIn`).
- The minimal build's id is `'user_' + Date.now()`, so a second
  registration within the same millisecond always fails
  (`SimpleAuth.SameMillisecondCollides`).
- `/users` validates query-string values, which are strings, against
  `z.number()`. So any request that passes the bearer-token gate and gives `limit` or `offset` is a 500; without a valid token the gate answers 401 or 403 first
  (`ServerHelpers.UsersSearchRule`).

## Model

| member | source | states |
|---|---|---|
| Auth.PublicOf | backend/dist/server.js:182-191 | the session's `user` object carries exactly the returned row's user id, email, name, creation time and role |
| Auth.RoleOf | backend/dist/server.js:162 | `role = 'user'` replaces only an absent role; a given role, even `null` or empty, is kept |
| Auth.NormalizeEmailIdempotent | backend/dist/server.js:172 | `toLowerCase().trim()` applied to its own result changes nothing |
| Auth.NormalizeEmailIgnoresCase | backend/dist/server.js:172 | an email, its lower-cased form and the email with a leading space all normalise alike |
| Auth.SqlParam | backend/dist/server.js:178 | a parameter is `NULL` exactly for `null`/`undefined`, and a string parameter is sent as that string |
| Auth.ColumnValue | backend/dist/server.js:233 | a stored column always reads back as a value (a string, or `null` for SQL `NULL`) |
| Auth.TokenOf | backend/dist/server.js:141 | a token found in the header is non-empty and contains no space |
| Auth.TokenOfBearer | backend/dist/server.js:141 | `"<scheme> <token>"` yields exactly the token |
| Auth.TokenOfMissing | backend/dist/server.js:141-144 | no header, a bare scheme, and a scheme followed by one space all carry no token |
| Auth.GatePasses | backend/dist/server.js:139-157 | the gate calls `next` with user `u` exactly when a token is present, verifies, and the lookup of its `user_id` finds `u` |
| Auth.GateRefusals | backend/dist/server.js:139-157 | every refusal is 401 or 403; 403 exactly when `jwt.verify` or the query threw; a missing token is 401 `Access token required` |
| Auth.LookupUserId | backend/dist/server.js:147-150 | the lookup by `user_id` fails with the connection's error, or finds a row exactly when some stored row has that id and returns that row's summary |
| Auth.Authenticate | backend/dist/server.js:139-157 | the method against the table returns the gate's result; on success `req.user` is the found user, and otherwise `req.user` is untouched |
| Auth.UniqueUserId | backend/dist/server.js:147-151 | with unique user ids, the row the query returns is the row the lookup names |
| Auth.AuthenticateById | backend/server.ts:52-73 | the TypeScript gate has the same 401/403/401 branches, with the lookup by column `id` as an input; `req.user` is set only on success |
| Auth.LoginAttemptRule | backend/dist/server.js:226-248 | login answers 200 exactly when the normalised email is stored and the password `===` the stored one, with that row's session; otherwise the same 400 `Invalid email or password` |
| Auth.LoginAttemptFinds | backend/dist/server.js:226-248 | a stored row whose password is sent verbatim gets a 200 session for that row |
| Auth.PasswordMatch | backend/dist/server.js:233 | a stored string password is matched by exactly that string value |
| Auth.Login | backend/dist/server.js:226-248 | the lookup-and-compare steps against the table give exactly the login function's answer |
| Auth.NewRow | backend/dist/server.js:178 | the inserted row has the lower-cased, trimmed email, the trimmed name, the given id, the password and role as the driver sends them, and the current time |
| Auth.RegisterAttempt | backend/dist/server.js:172-191 | the shared register tail answers 201 or 400 when it does not throw, and the table changes only on 201 |
| Auth.RegisterAttemptEffect | backend/dist/server.js:172-191 | 201 happens exactly when neither query fails, email and name are strings, and neither the lookup key, the normalised email nor the id is taken; it adds exactly the new row and returns its session |
| Auth.RegisterAttemptStores | backend/dist/server.js:176-191 | when nothing is taken and no query fails, the attempt stores the new row under its email and answers 201 with its session |
| Auth.Register | backend/dist/server.js:172-191 | the duplicate query and insert against the table give exactly the function's response and new table, and leave the table unchanged on a throw |
| DistAuth.RegisterInput | backend/dist/server.js:170 | the object handed to the schema has exactly the keys `email`, `password`, `name` and `role` |
| DistAuth.RegisterCaught | backend/dist/server.js:193-213 | the `catch` answers only 400, 500 or 503 |
| DistAuth.RegisterCaughtCodes | backend/dist/server.js:201-213 | error code `23505` is 400 `User with this email already exists`, `ECONNREFUSED` is 503, and any other database error is 500 |
| DistAuth.RegisterHandler | backend/dist/server.js:160-215 | the handler against the table gives exactly the specified response and new table, and keeps the table well formed |
| DistAuth.RegisterInputRules | backend/dist/server.js:170 | the schema accepts the register body exactly when the email is a string the e-mail check accepts, the name a string of 1–255 UTF-16 code units, the password a string of at least 6, and the role a non-empty string; lengths are JavaScript lengths |
| DistAuth.RegisterMissingFields | backend/dist/server.js:164-168 | a missing or empty email, password or name gives the 400 missing-fields message and no change |
| DistAuth.RegisterInvalidInput | backend/dist/server.js:195-200 | a body the schema refuses gives 400 `Invalid input data` with the schema's issues, and no change |
| DistAuth.RegisterPastSchema | backend/dist/server.js:170-178 | past the guard and the schema, email, name and password are strings and the handler is the shared tail on the normalised email with a fresh `generateUniqueId` |
| DistAuth.RegisterQueryFaults | backend/dist/server.js:172-213 | a duplicate query that throws is answered by the `catch`, and the table is left alone |
| DistAuth.RegisterInsertFaults | backend/dist/server.js:178-213 | an insert that throws is answered by the `catch`, and the table is left alone |
| DistAuth.RegisterIdTaken | backend/dist/server.js:176-204 | a fresh id that collides with a stored one trips the unique constraint: 400 duplicate user, and no change |
| DistAuth.RegisterDuplicate | backend/dist/server.js:172-175 | an email equal to a stored one after `toLowerCase().trim()` gives 400 `User with this email already exists`, and no change |
| DistAuth.RegisterVariantRefused | backend/dist/server.js:172-175 | re-registering an upper-cased or space-prefixed variant of a registered email is refused with 400 |
| DistAuth.RegisterOutcomes | backend/dist/server.js:160-215 | every registration answers 201, 400, 500 or 503, and only a 201 changes the table |
| DistAuth.RegisterCreated | backend/dist/server.js:160-215 | a registration answers 201 exactly when the email is a non-empty string the e-mail check accepts, the name has 1–255 UTF-16 code units, the password at least 6, the role is non-empty, neither query fails, and neither the normalised email nor the fresh id is stored |
| DistAuth.RegisterRefusedBySchema | backend/dist/server.js:170-200 | a body the schema refuses is a 400 and is not an accepted registration |
| DistAuth.RegisterReachesDatabase | backend/dist/server.js:172-213 | past the schema, the answer is 201 exactly for an accepted registration |
| DistAuth.RegisterStores | backend/dist/server.js:176-191 | an accepted registration adds exactly one row (fresh id, normalised email, password verbatim, trimmed name, role or `'user'`, current time), and the 201 carries its session |
| DistAuth.RegisterWellFormed | backend/dist/server.js:178 | registering keeps emails and user ids unique in the table |
| DistAuth.LoginCaught | backend/dist/server.js:250-260 | the login `catch` answers only 500 or 503 |
| DistAuth.LoginHandler | backend/dist/server.js:217-261 | the handler against the table gives exactly the specified response and never changes the table |
| DistAuth.LoginRule | backend/dist/server.js:221-248 | login is 200 exactly when the fields are present, the normalised email is stored and the password `===` the stored one, with that row's session; an unknown email and a wrong password give the same 400 |
| DistAuth.LoginErrors | backend/dist/server.js:250-260 | a non-string email throws and is 500; a refused connection is 503 |
| DistAuth.LoginFindsRow | backend/dist/server.js:226-248 | a login whose email normalises to a stored row's key and whose password is that row's gets that row's session |
| DistAuth.RegisterThenLogin | backend/dist/server.js:178-236 | after an accepted registration, a login with the same password and an email that normalises alike answers 200 with the user and token the registration returned |
| SimpleAuth.UserId | backend/simple-server.cjs:113 | the id is `user_` followed by the clock's decimal digits |
| SimpleAuth.UserIdInjective | backend/simple-server.cjs:113 | ids are equal exactly when they were made in the same millisecond |
| SimpleAuth.RegisterHandler | backend/simple-server.cjs:96-148 | the handler against the table gives exactly the specified response and new table |
| SimpleAuth.RegisterCreated | backend/simple-server.cjs:99-141 | answers are 201, 400 or 500; 201 exactly for an accepted registration, which adds the row with the normalised email, the trimmed name, the clock's id and the role given or `'user'`; any other answer leaves the table alone |
| SimpleAuth.SameMillisecondCollides | backend/simple-server.cjs:113-119 | after a 201, a second registration in the same millisecond never succeeds; with a new email it is the 500 from the unique constraint |
| SimpleAuth.LoginHandler | backend/simple-server.cjs:35-93 | the handler against the table gives exactly the specified response |
| SimpleAuth.LoginAgreesWithCompiled | backend/simple-server.cjs:35-93 | this login answers as the compiled server's does, except that a refused connection is 500 instead of 503 |
| SimpleAuth.RegisterThenLogin | backend/simple-server.cjs:48-119 | after an accepted registration with a string password, the same credentials log in as the registered user |
| SimpleAuth.NumericPasswordLocksOut | backend/simple-server.cjs:60 | an account registered with a numeric password is always refused at login with the same body |
| SimpleAuth.NumericPasswordTextLogsIn | backend/simple-server.cjs:60 | an account registered with a numeric password is let in by a login that sends the stored text of that number as a string |
| TsAuth.RegisterHandler | backend/server.ts:78-122 | the handler against the table gives exactly the specified response and new table |
| TsAuth.RegisterPastSchema | backend/server.ts:83-97 | a body the schema accepts reaches the shared tail with the email as sent as the duplicate key |
| TsAuth.RegisterInvalidBody | backend/server.ts:83-121 | a body the schema refuses is a 500 `Internal server error`, before any query |
| TsAuth.RegisterExactDuplicate | backend/server.ts:86-89 | the duplicate 400 happens exactly when the raw email is stored, with no change |
| TsAuth.RegisterVariantIs500 | backend/server.ts:86-121 | an email that is new as sent but stored once normalised passes the check and is a 500 from the unique constraint, with no change |
| TsAuth.RegisterCreated | backend/server.ts:78-122 | answers are 201, 400 or 500; 201 exactly when the body passes the schema (lengths in UTF-16 code units), neither query fails, and neither the email as sent, its normalised form nor the fresh id is stored; a 201 adds the row with the normalised email, the trimmed name and `password` as the driver sends it; other answers leave the table alone |
| TsAuth.LoginHandler | backend/server.ts:125-164 | the handler against the table gives exactly the specified response |
| TsAuth.LoginRule | backend/server.ts:127-163 | login is 200 exactly when the normalised email is stored and the password `===` the stored one; otherwise 400 with a string email and a working connection, and 500 (a missing email, for one) otherwise |
| TsAuth.RegisterThenLogin | backend/server.ts:94-141 | after a 201 with a string password, the same credentials log in as the registered user |
| TsAuth.NullPasswordLogin | backend/server.ts:80-138 | a body without `password` stores `NULL`; a login sending `password: null` is then let in, and one that leaves it out is refused |
| UsersDb.UsersTable.SelectByEmail | backend/dist/server.js:172 | the query fails with the connection's error, or returns the row filed under that email, if any |
| UsersDb.UsersTable.SelectByUserId | backend/dist/server.js:147 | the query fails with the connection's error, or returns a stored row with that user id exactly when one exists |
| UsersDb.UsersTable.Insert | backend/dist/server.js:178 | the insert changes the table exactly as `Inserted` says and keeps it well formed |
| UsersDb.Inserted | backend/dist/server.js:178 | an insert fails on a connection fault, or with a unique violation exactly when the email or id is taken; the table then stays as it was, and otherwise gains exactly the row |
| UsersDb.InsertedWellFormed | backend/dist/server.js:178 | inserting keeps emails and user ids unique |
| UsersDb.InsertedKeepsRows | backend/dist/server.js:178 | an insert never alters or drops an existing row |
| Json.Get | backend/dist/server.js:162 | property access is `undefined` exactly for a missing key, and is the stored value otherwise |
| Json.StrictEqualsString | backend/dist/server.js:233 | `===` against a string holds exactly for that same string |
| Json.Pick | backend/dist/server.js:763-795 | an object built from destructured fields has the listed keys the data has, with the data's values |
| Json.PickPresent | backend/dist/server.js:763-795 | picking one more key that is present adds exactly that entry |
| Json.PickAbsent | backend/dist/server.js:763-795 | picking one more key that is absent adds nothing |
| Realtime.Relay | backend/dist/server.js:763-798 | each non-disconnect event with data is re-emitted exactly once; `disconnect`, and data that cannot be destructured, emit nothing |
| Realtime.RelayPayload | backend/dist/server.js:763-795 | the one emission goes to `<kind>/<id>/<suffix>`; its payload holds exactly the event's listed fields that the client sent, with their values, plus a fresh `message_id` for a new channel message |
| Realtime.RelayMessageId | backend/dist/server.js:776-779 | the `message_id` of a relayed channel message is a string of 26 characters with the id format's dashes and version digit |
| Realtime.RelayExactData | backend/dist/server.js:763-795 | data holding only the listed fields is relayed unchanged |
| Realtime.TopicInjective | backend/dist/server.js:763-795 | for one event, two ids give the same topic exactly when they print the same |
| Realtime.TopicInjectiveString | backend/dist/server.js:763-795 | string ids name topics one to one |
| Realtime.TopicsDistinct | backend/dist/server.js:763-795 | two different events never share a topic, whatever their ids |
| Schema.CheckString | backend/dist/schema.js:12-14 | a string rule accepts exactly a string whose JavaScript `length`, in UTF-16 code units, is within its bounds and that passes its format oracle, and yields it unchanged |
| Schema.CheckNumber | backend/dist/schema.js:26-27 | a number rule accepts exactly a number that is integral and positive or non-negative as the rule asks, and yields it unchanged |
| Schema.Parse | backend/dist/schema.js:11-16 | a failed parse reports at least one issue |
| Schema.ParseSucceeds | backend/dist/schema.js:11-16 | an object parses exactly when every field accepts what it is given |
| Schema.MadeOptional | backend/dist/schema.js:202-211 | `.optional()` on a field without a default accepts an absent key, and otherwise what the field accepts |
| Schema.ParseAllAbsent | backend/dist/schema.js:202-211 | when every field is optional with no default and absent, the parse is the empty object |
| Schema.ParseKeysDeclared | backend/dist/schema.js:11-16 | a parsed object holds no key the shape does not declare |
| Schema.ParseOutput | backend/dist/schema.js:11-16 | on success, each declared key holds exactly what its field parsed to: the given value, the default for an absent key, or nothing |
| Schema.ParseOutputs | backend/dist/schema.js:11-16 | the all-fields form: each field accepts, and the output under its key is its parsed value |
| Schema.PassThroughField | backend/dist/schema.js:15 | an accepting pass-through field yields the given value, or its default when the key is absent |
| Schema.ParseKeepsValues | backend/dist/schema.js:11-16 | over pass-through fields, the output holds under each key what was given, or the default |
| Schema.ParseStrips | backend/schema.ts:13-18 | over pass-through fields without defaults, a successful parse is the input with the undeclared keys stripped |
| Schema.ParseKeysAll | backend/dist/schema.js:11-16 | when no field may be left out, a successful parse holds exactly the declared keys |
| Schema.DefaultOnlyWhenAbsent | backend/dist/schema.js:15 | a default never affects a value that is given |
| Schemas.CreateUserRules | backend/dist/schema.js:11-16 | the schema accepts exactly an e-mail, a name of 1–255 UTF-16 code units, a password of at least 6, and a role that is absent or non-empty |
| Schemas.CreateUserOutput | backend/dist/schema.js:11-16 | it yields the given email, name and password, and the given role or `'user'` when absent |
| Schemas.CreateUserOutputKeys | backend/dist/schema.js:11-16 | its output always has exactly the four keys |
| Schemas.CreateUserTsRules | backend/schema.ts:13-18 | the TypeScript schema accepts exactly an e-mail, a name of 1–255 UTF-16 code units, any string `password_hash`, and a non-empty role with no default |
| Schemas.CreateUserTsOutput | backend/schema.ts:13-18 | its output is the input restricted to its four keys |
| Schemas.SearchRules | backend/dist/schema.js:24-30 | a search schema accepts exactly: every field optional; a given `query` is a string, `limit` a positive integer, `offset` a non-negative integer, `sort_by` one of its keys, `sort_order` `asc` or `desc` |
| Schemas.SearchShape | backend/dist/schema.js:24-30 | the search shape has five pass-through fields with defaults 10, 0, its sort key and its order, and none for `query` |
| Schemas.SearchFieldRules | backend/dist/schema.js:24-30 | the rule of each search field on its own, for a given and an absent key |
| Schemas.SearchOutput | backend/dist/schema.js:24-30 | a search keeps each given field and fills in each absent one's default, and holds no other key |
| Schemas.SearchDefaults | backend/dist/schema.js:24-30 | a query naming no search field parses to limit 10, offset 0, the default sort key and order, and no `query` |
| Schemas.SearchUserRules | backend/dist/schema.js:24-30 | `searchUserInputSchema`: the search rules with sort keys `name` and `created_at`; its defaults are `created_at` and `desc` |
| Schemas.SortOrderAscending | backend/dist/schema.js:54 | workspace, channel, board, task and calendar searches (lines 54, 99, 180, 217, 279) default to `asc` |
| Schemas.SortOrderDescending | backend/dist/schema.js:158 | file, message, document, notification and user searches (lines 158, 130, 248, 307, 29) default to `desc` |
| Schemas.SearchWorkspaceMemberRules | backend/dist/schema.js:72-75 | the member search accepts exactly a positive `limit` and a non-negative `offset` when given, and yields both keys with the given values or 10 and 0 |
| Schemas.CreateTaskRules | backend/dist/schema.js:193-201 | the schema accepts exactly: a string board id; a title of 1–255 UTF-16 code units; non-empty status and priority; and `assigned_user_id`, `description` and `due_date` each present, as `null` or a value of its type |
| Schemas.CreateTaskFieldRules | backend/dist/schema.js:193-201 | the rule of each create-task field on its own |
| Schemas.UpdateTaskRules | backend/dist/schema.js:202-211 | the update accepts exactly a string `task_id` with every other field absent or meeting its create-time rule |
| Schemas.UpdateTaskIdOnly | backend/dist/schema.js:202-211 | an update naming only the task parses to itself |
| Schemas.MessageContentBounds | backend/dist/schema.js:110-116 | a message is accepted exactly with content of 1–1000 UTF-16 code units and the other fields of their types |
| Schemas.NotificationContentBounds | backend/dist/schema.js:289-294 | a notification is accepted exactly with content of 1–1000 UTF-16 code units and the other fields of their types |
| Schemas.CreateDocumentRules | backend/dist/schema.js:228-234 | a document is accepted exactly with a title of 1–255 UTF-16 code units, non-empty content and version, a workspace id and a date |
| ServerHelpers.OriginRule | backend/dist/server.js:76-91 | a given origin passes exactly when it is empty, is `FRONTEND_URL` (or `http://localhost:5173` when that is unset or empty), is `http://localhost:5173` or `http://localhost:3000`, or ends with `.launchpulse.ai`, which covers the listed deployment origin |
| ServerHelpers.OriginExamples | backend/dist/server.js:54-69 | the local development origin, a `launchpulse.ai` subdomain and a request without an origin pass whatever `FRONTEND_URL` is; an unrelated origin is refused when it is unset |
| ServerHelpers.Hex | backend/dist/server.js:805 | `v.toString(16)` of a nibble is one lower-case hexadecimal digit |
| ServerHelpers.Fill | backend/dist/server.js:802-806 | `replace` keeps the template's length |
| ServerHelpers.YDigits | backend/dist/server.js:804 | `r & 0x3 \| 0x8` is 8 plus the low two bits, printed as `8`, `9`, `a` or `b` |
| ServerHelpers.FillConcat | backend/dist/server.js:802-806 | filling a concatenation fills each part, the second with the draws after the first part's placeholders |
| ServerHelpers.Group | backend/dist/server.js:802-806 | a group of n digits holds the printed draws `from` to `from + n - 1` |
| ServerHelpers.FillXs | backend/dist/server.js:802-806 | a run of `x` becomes one drawn digit each |
| ServerHelpers.FillFixed | backend/dist/server.js:802-806 | template text without placeholders is copied and draws nothing |
| ServerHelpers.UniqueIdGroups | backend/dist/server.js:801-807 | the id is the template with the 21 drawn digits in place, group by group |
| ServerHelpers.UniqueIdDigits | backend/dist/server.js:801-807 | where each drawn digit lands in the 26-character id |
| ServerHelpers.UniqueIdFormat | backend/dist/server.js:801-807 | every id has length 26, `-` at 4, 9, 14 and 19, `4` at 10, one of `8 9 a b` at 15, and a lower-case hex digit everywhere else |
| ServerHelpers.GroupInjective | backend/dist/server.js:802-806 | equal groups come from equal draws, and conversely |
| ServerHelpers.UniqueIdInjective | backend/dist/server.js:801-807 | two draws give the same id exactly when they agree on every `x` and on the low two bits of `y` |
| ServerHelpers.UnreadCount | backend/dist/server.js:687 | the reported count is never 0: a parsed non-zero count is kept, and NaN or 0 become 1 |
| ServerHelpers.UnreadCountOfCount | backend/dist/server.js:687 | on the text of a count, the report is that count, or 1 for 0 |
| ServerHelpers.UsersSearchInput | backend/dist/server.js:282-283 | the validated object has `query` when given, and always `limit`, `offset`, `sort_by` and `sort_order` |
| ServerHelpers.UsersSearchInputValues | backend/dist/server.js:282 | each key of the validated object holds the query-string value or the destructuring default |
| ServerHelpers.UsersSearch | backend/dist/server.js:280-291 | a failed validation is answered with 500 |
| ServerHelpers.UsersSearchRule | backend/dist/server.js:282-289 | with query-string values, `/users` validates exactly when neither `limit` nor `offset` is given and a given sort field, order and query are valid |
| ServerHelpers.UsersSearchDefaults | backend/dist/server.js:282-283 | with no parameters the search runs with limit 10, offset 0, `created_at`, `desc` and no query |
| InitDb.Pieces | backend/initdb.js:43 | splitting from a cut yields at least one piece |
| InitDb.SplitCommands | backend/initdb.js:40-43 | the split yields at least one piece |
| InitDb.PiecesConcat | backend/initdb.js:43 | the pieces from a cut concatenate to the rest of the text |
| InitDb.SplitConcat | backend/initdb.js:40-43 | the pieces concatenate back to the file text: the lookahead split drops nothing |
| InitDb.NotInsideKeyword | backend/initdb.js:43 | no keyword starts strictly inside another |
| InitDb.NoOverlap | backend/initdb.js:43 | two keyword occurrences never overlap |
| InitDb.PiecesShape | backend/initdb.js:43 | the pieces from a cut are cut exactly before each keyword |
| InitDb.SplitShape | backend/initdb.js:40-43 | every piece after the first starts with `CREATE TABLE ` or `INSERT INTO`, no piece holds either keyword anywhere else, and only the empty text yields an empty piece |
| InitDb.RunsIffTrimmed | backend/initdb.js:47 | a piece runs exactly when its trim is non-empty |
| InitDb.NonBlank | backend/initdb.js:46-51 | the filter keeps at most the pieces it is given |
| InitDb.NonBlankAppend | backend/initdb.js:46-51 | the kept pieces of a concatenation are the kept pieces of each part, in order |
| InitDb.NonBlankSnoc | backend/initdb.js:46-51 | a blank piece is skipped and a piece with text is kept, wherever it stands |
| InitDb.RunPiecesSpec | backend/initdb.js:46-51 | the loop sends a prefix of the pieces with text, in order; every query before the failing one succeeded, and with no failure it sent them all |
| InitDb.CommitOnlyIfAllSucceed | backend/initdb.js:37-60 | the transcript starts with `BEGIN`; it ends with `COMMIT` exactly on success and with `ROLLBACK` otherwise; success means `BEGIN`, the file read, every command and the commit all succeeded |
| InitDb.SuccessRunsAll | backend/initdb.js:37-54 | on success exactly the pieces with text ran, in file order, between `BEGIN` and `COMMIT` |
| InitDb.FailureStopsAtCommand | backend/initdb.js:46-60 | when a command throws, the commands before it ran, nothing after it ran, and `ROLLBACK` follows at once |
| InitDb.Client.constructor | backend/initdb.js:34 | a fresh client has sent nothing and is not released |
| InitDb.Client.Query | backend/initdb.js:49 | a query is appended to what was sent, and its outcome is the input's for its position |
| InitDb.Client.Release | backend/initdb.js:63 | releasing keeps the transcript and marks the client released |
| InitDb.SendPieces | backend/initdb.js:46-51 | the `for` loop sends exactly what the loop specification says, and reports the failing query |
| InitDb.Init | backend/initdb.js:33-65 | `initDb` yields exactly the specified transcript and error, and the client is released on every path |
| Kanban.EmptyColumns | vitereact/src/components/views/UV_KanbanBoard.tsx:112-119 | without a task array the board is exactly the four default columns, all empty |
| Kanban.Bucket | vitereact/src/components/views/UV_KanbanBoard.tsx:96-102 | after the `reduce` there is a column for exactly the statuses present, each holding that status's tasks in list order |
| Kanban.AddDefaults | vitereact/src/components/views/UV_KanbanBoard.tsx:104-109 | after the `forEach` the board is exactly the grouping of the tasks |
| Kanban.AddMissing | vitereact/src/components/views/UV_KanbanBoard.tsx:105-109 | the columns are the statuses present plus the names added, each holding exactly its tasks |
| Kanban.Group | vitereact/src/components/views/UV_KanbanBoard.tsx:94-111 | the `reduce` followed by the `forEach` yields the grouping whose columns, contents and order the three lemmas below state |
| Kanban.GroupedColumns | vitereact/src/components/views/UV_KanbanBoard.tsx:95-109 | every default column exists, every task's status has a column, and there are no other columns |
| Kanban.GroupedConserves | vitereact/src/components/views/UV_KanbanBoard.tsx:96-109 | no task is lost or duplicated: each column holds exactly the tasks of its status, as often as the input has them |
| Kanban.GroupedKeepsOrder | vitereact/src/components/views/UV_KanbanBoard.tsx:96-102 | each column lists its tasks in input order |
| Kanban.GroupedEmpty | vitereact/src/components/views/UV_KanbanBoard.tsx:95-119 | an empty task array gives the same board as no task array |
| Kanban.DropNowhere | vitereact/src/components/views/UV_KanbanBoard.tsx:125-134 | a drop with no destination, or onto its own place, changes nothing and sends nothing |
| Kanban.MoveWithinColumn | vitereact/src/components/views/UV_KanbanBoard.tsx:139-151 | a move within a column permutes only that column, puts the moved task at the destination index (or last, past the end), changes no other column, and sends nothing |
| Kanban.MoveAcrossColumns | vitereact/src/components/views/UV_KanbanBoard.tsx:153-168 | a move across columns removes exactly the source task, inserts it at the destination, conserves the tasks and their count, leaves other columns alone, and sends one status update, to the destination's name |
| Kanban.DragBackWithin | vitereact/src/components/views/UV_KanbanBoard.tsx:139-151 | dragging a task back within its column restores the board |
| Kanban.DragBackAcross | vitereact/src/components/views/UV_KanbanBoard.tsx:153-165 | dragging a task back to its column restores the board |
| Kanban.TaskRequest | vitereact/src/components/views/UV_KanbanBoard.tsx:171-182 | no task without a title or board id; otherwise board `default` becomes `default-board-id`, an empty status becomes `To Do`, an empty priority `Medium`, and the other fields are kept |
| Kanban.TaskRequestStable | vitereact/src/components/views/UV_KanbanBoard.tsx:171-182 | a created task has a title, status and priority and no `default` board, and a form filled from it creates it unchanged |
| Kanban.Board.constructor | vitereact/src/components/views/UV_KanbanBoard.tsx:22 | the board starts with no columns and nothing sent |
| Kanban.Board.Organize | vitereact/src/components/views/UV_KanbanBoard.tsx:94-120 | the effect sets the columns to the grouping of the task data, or to the four empty defaults without data, and sends nothing |
| Kanban.Board.OnDragEnd | vitereact/src/components/views/UV_KanbanBoard.tsx:122-169 | the columns become the spliced copies and the drag's requests are sent |
| Kanban.Board.HandleCreateTask | vitereact/src/components/views/UV_KanbanBoard.tsx:171-185 | one create request, carrying the task the form yields, is sent exactly when the form yields one; the columns are kept |
| Lists.Filter | vitereact/src/components/views/UV_Files.tsx:68-71 | `filter` never returns more elements than it is given |
| Lists.FilterSound | vitereact/src/components/views/UV_Files.tsx:68-71 | only elements of the input that pass are kept |
| Lists.FilterKeeps | vitereact/src/components/views/UV_Files.tsx:68-71 | every element of the input that passes is kept |
| Lists.FilterMultiset | vitereact/src/components/views/UV_Files.tsx:68-71 | each passing element is kept as often as the input has it, and no other element is kept |
| Lists.FilterSubsequence | vitereact/src/components/views/UV_Files.tsx:68-71 | the result is a subsequence of the input |
| Lists.RemoveAt | vitereact/src/components/views/UV_KanbanBoard.tsx:141 | `splice(i, 1)` takes out the i-th element and shifts the later ones down |
| Lists.RemoveAtMultiset | vitereact/src/components/views/UV_KanbanBoard.tsx:155 | removing takes out exactly one copy of the element |
| Lists.InsertAt | vitereact/src/components/views/UV_KanbanBoard.tsx:142 | `splice(i, 0, x)` puts x at the clamped index and shifts the later elements up |
| Lists.InsertAtMultiset | vitereact/src/components/views/UV_KanbanBoard.tsx:157 | inserting adds exactly one copy of the element |
| Lists.Clamp | vitereact/src/components/views/UV_KanbanBoard.tsx:142 | `splice` starts at the index, or at the end when the index is past it |
| Lists.InsertRemove | vitereact/src/components/views/UV_KanbanBoard.tsx:141-142 | inserting an element and removing it again restores the list |
| Lists.RemoveInsert | vitereact/src/components/views/UV_KanbanBoard.tsx:141-142 | removing an element and inserting it back where it was restores the list |
| Store.FailureMessage | vitereact/src/store/main.tsx:132-142 | a connection failure gives the connect message, and otherwise a 502 gives the unavailable message |
| Store.FailureMessagePrecedence | vitereact/src/store/main.tsx:132-142 | below those two, the server's message, then the error's message, then the fallback; the message is never empty |
| Store.StartAuth | vitereact/src/store/main.tsx:93-102 | starting a request sets loading and clears the error, and keeps the user, token, authentication flag and all other slices |
| Store.FinishAuth | vitereact/src/store/main.tsx:116-153 | a session signs in with its user and token, stops loading, clears the error and opens a socket; a failure only stops loading and shows the classified message; the other slices are kept |
| Store.RegisterBody | vitereact/src/store/main.tsx:172 | the register body is exactly email, password, name and role `user` |
| Store.LoginBody | vitereact/src/store/main.tsx:107 | the login body is exactly email and password |
| Store.BodiesPassServerGuards | vitereact/src/store/main.tsx:172 | with non-empty fields, both bodies pass the server's field guards, and the registration's role is `user` |
| Store.AuthOutcomePersisted | vitereact/src/store/main.tsx:93-153 | a failed request changes nothing persisted; a success persists its user, token and signed-in flag |
| Store.InitializeAuth | vitereact/src/store/main.tsx:256-321 | with no token only loading ends; a verified token signs in with default workspace `workspace1` and opens a socket; a failed verification signs out and ends loading |
| Store.InitializeAuthSettles | vitereact/src/store/main.tsx:256-321 | start-up always ends not loading; it ends signed in only through a verified token, or, without a token, when already signed in; without a token the verification answer is irrelevant |
| Store.ClearAuthError | vitereact/src/store/main.tsx:323-330 | only the error message goes |
| Store.MergeProfile | vitereact/src/store/main.tsx:336-339 | the merge has the user's fields with the update's on top, and no user stays no user |
| Store.UpdateUserProfile | vitereact/src/store/main.tsx:332-342 | only the current user changes, to the merge |
| Store.UpdateUserProfileIdempotent | vitereact/src/store/main.tsx:332-342 | the same update twice is the update once; an empty update changes nothing |
| Store.JoinWorkspace | vitereact/src/store/main.tsx:344-351 | only the selected workspace changes; the workspace list is kept |
| Store.JoinWorkspaceLastWins | vitereact/src/store/main.tsx:344-351 | joining a second workspace overrides the first |
| Store.Toggled | vitereact/src/store/main.tsx:356 | the theme always flips |
| Store.SwitchTheme | vitereact/src/store/main.tsx:353-359 | only the theme changes, to the other one |
| Store.SwitchThemeTwice | vitereact/src/store/main.tsx:353-359 | switching twice restores the state |
| Store.PartializeForgetsTransient | vitereact/src/store/main.tsx:363-374 | two states persist alike exactly when they differ at most in loading, error message and socket |
| Store.TransientActionsNotPersisted | vitereact/src/store/main.tsx:363-374 | starting a request and clearing the error are invisible to storage |
| Store.AppStore.constructor | vitereact/src/store/main.tsx:68-89 | the store starts in the initial state: signed out, loading, light theme, no socket |
| Store.AppStore.Set | vitereact/src/store/main.tsx:67 | `set` replaces the state |
| Store.AppStore.LoginUser | vitereact/src/store/main.tsx:92-155 | `login_user` starts the request, then applies its answer with fallback `Login failed` |
| Store.AppStore.RegisterUser | vitereact/src/store/main.tsx:157-220 | `register_user` starts the request, then applies its answer with fallback `Registration failed` |
| Store.AppStore.CompleteAuth | vitereact/src/store/main.tsx:104-153 | the `try`/`catch` after a request applies its answer |
| Store.AppStore.InitializeAuthAction | vitereact/src/store/main.tsx:256-321 | `initialize_auth` moves the store as the start-up function says |
| Store.AppStore.ClearAuthErrorAction | vitereact/src/store/main.tsx:323-330 | `clear_auth_error` moves the store as the function says |
| Store.AppStore.UpdateUserProfileAction | vitereact/src/store/main.tsx:332-342 | `update_user_profile` moves the store as the function says |
| Store.AppStore.JoinWorkspaceAction | vitereact/src/store/main.tsx:344-351 | `join_workspace` moves the store as the function says |
| Store.AppStore.SwitchThemeAction | vitereact/src/store/main.tsx:353-359 | `switch_theme` moves the store as the function says |
| FilesView.FilteredDocuments | vitereact/src/components/views/UV_Files.tsx:68-71 | a document is kept exactly when its lower-cased title or content contains the lower-cased term; no data gives an empty list |
| FilesView.FilteredKeepsOrder | vitereact/src/components/views/UV_Files.tsx:68-71 | the result keeps the list's order, and each kept document appears as often as in the list |
| FilesView.EmptyTermKeepsAll | vitereact/src/components/views/UV_Files.tsx:68-71 | an empty term keeps every document |
| FilesView.SearchIgnoresCase | vitereact/src/components/views/UV_Files.tsx:68-71 | searching for the lower-cased term finds the same documents |
| FilesView.TitleFindsDocument | vitereact/src/components/views/UV_Files.tsx:68-71 | a document is found by its own title, in any case |
| FilesView.DocumentRequest | vitereact/src/components/views/UV_Files.tsx:73-80 | nothing is sent for a blank title; otherwise the trimmed title, and the trimmed content or the placeholder text for a blank one |
| FilesView.PlaceholderStable | vitereact/src/components/views/UV_Files.tsx:77 | the placeholder is not blank and trims to itself |
| FilesView.TrimmedStable | vitereact/src/components/views/UV_Files.tsx:74-77 | a non-empty trimmed text is not blank and trims to itself |
| FilesView.DocumentRequestStable | vitereact/src/components/views/UV_Files.tsx:73-80 | submitting a created document's own fields again creates the same document |
| FilesView.Preview | vitereact/src/components/views/UV_Files.tsx:212-215 | content of at most 150 characters is shown as it is; longer content shows its first 150 characters and `...`, 153 in all |
| FilesView.PreviewIdempotent | vitereact/src/components/views/UV_Files.tsx:212-215 | previewing a preview changes nothing |
| FilesView.EmptyHeading | vitereact/src/components/views/UV_Files.tsx:177-179 | the heading is `No documents found` exactly for a non-empty term, and `No documents yet` exactly for an empty one |
| FilesView.NothingYetMeansEmpty | vitereact/src/components/views/UV_Files.tsx:174-179 | `No documents yet` over an empty result means there are no documents |
| Text.Utf16Length | backend/dist/schema.js:13-14 | a string's JavaScript `length` is at least its number of characters and at most twice it, and is 0 exactly for the empty string |
| Text.Utf16LengthBmp | backend/dist/schema.js:13-14 | text within the Basic Multilingual Plane has as many code units as characters |
| Text.Utf16LengthAstral | backend/dist/schema.js:14 | three emoji are three characters but six code units |
| Schemas.PasswordCountsCodeUnits | backend/dist/schema.js:14 | three emoji, six UTF-16 code units, meet `min(6)` |
| InitDb.PiecesNonEmpty | backend/initdb.js:43 | every piece from a cut is non-empty |
| Text.TrimStart | backend/dist/server.js:172 | the result is a suffix left after removing only leading white space, and starts with no white space |
| Text.TrimEnd | backend/dist/server.js:172 | the result is a prefix left after removing only trailing white space, and ends with no white space |
| Text.TrimIsMiddle | backend/dist/server.js:172 | `trim` keeps a contiguous middle part, with only white space cut from either end |
| Text.TrimEmptyIffBlank | backend/initdb.js:47 | the trim is empty exactly when the text is all white space |
| Text.TrimUntrimmed | vitereact/src/components/views/UV_Files.tsx:74-77 | a text with no white space at its ends trims to itself |
| Text.TrimIdempotent | vitereact/src/components/views/UV_Files.tsx:74-77 | trimming twice is trimming once |
| Text.LowerChar | backend/dist/server.js:172 | an upper-case ASCII letter maps to its lower-case letter, and every other character to itself |
| Text.ToLower | backend/dist/server.js:172 | `toLowerCase` keeps the length and lower-cases each character |
| Text.ToLowerIdempotent | vitereact/src/components/views/UV_Files.tsx:68-70 | lower-casing twice is lower-casing once |
| Text.EndsWithIffConcat | backend/dist/server.js:65 | a text ends with a suffix exactly when it is some text followed by that suffix |
| Text.Contains | vitereact/src/components/views/UV_Files.tsx:69 | `includes` holds exactly when the needle occurs at some position |
| Text.ContainsEmpty | vitereact/src/components/views/UV_Files.tsx:69 | every text includes the empty text |
| Text.Split | backend/dist/server.js:141 | `split` yields at least one part, and no part holds the separator |
| Text.JoinSplit | backend/dist/server.js:141 | joining the parts with the separator restores the text |
| Text.SplitJoin | backend/dist/server.js:141 | splitting a join of separator-free parts gives back the parts |
| Text.NatText | backend/simple-server.cjs:113 | a number's text is decimal digits with no leading zero |
| Text.NatTextValue | backend/simple-server.cjs:113 | a number's decimal text has that number as its value |
| Text.DigitRun | backend/dist/server.js:687 | counts the longest run of leading characters that are digits in the radix |
| Text.ParseIntDigits | backend/dist/server.js:687 | `parseInt` reads a text of decimal digits whole |
| Text.ParseIntUnsigned | backend/dist/server.js:687 | a text starting with a digit and not `0x` is read as decimal digits |
| Text.ParseIntNatText | backend/dist/server.js:687 | `parseInt` gives back every natural number from its decimal text |

## Left out

- Database I/O: the Postgres pool, SQL execution, the `/health` and statistics queries, and the one-off scripts are not modelled. The `users` table is a map keyed by its `email` column, with unique emails and user ids. The outcome of each query (success, `ECONNREFUSED`, another error) is an input of each handler. `InitDb.Init` starts from a connected client: `pool.connect()` comes before the `try` (backend/initdb.js:34), so a failed connection sends no query and releases no client, and that path is not modelled.
- DistAuth.RegisterCaught: zod's issue messages and the text of their paths are abstracted as `Schema.Issue` values (the key and an issue kind). The `details` strings that backend/dist/server.js:198 builds as `path: message` are not modelled.
- JWT (RFC 7519): `jwt.sign` is a function parameter, and `jwt.verify` is a parameter that rejects a token or yields its `user_id` claim. A claim that is not a string is modelled as no claim (401), where the source would send its text to SQL; this never arises, since only tokens the server signed verify and it always signs a string `user_id`.
- Socket delivery: transport, fan-out and subscriptions are networking. Only the topic and payload of each emission are modelled. Numbers and arrays interpolated into a topic are rendered by parameters of the runtime's text.
- Clock and randomness: `new Date().toISOString()`, `Date.now()` and the `Math.random` nibbles of `generateUniqueId` are inputs.
- zod's library predicates: `.email()`, `.url()` and `z.coerce.date()` are oracle predicates. Only the schemas the auth handlers and the named searches, tasks, messages, notifications and documents use are modelled.
- Auth.AuthenticateById: the TypeScript build is modelled assuming the `users` table has a column `id`, since its register also selects it (backend/server.ts:85). The register's `SELECT id FROM users WHERE email = $1` is assumed to run, with a connection fault (`selectFault`) as its only failure. The gate compares that `id` column with the token's `user_id` claim (backend/server.ts:62). No insert sets `id`, and no table definition is part of this model, so how `id` relates to `user_id` is unknown and the lookup is an input. The TypeScript module also fails at load (`Pool` is used but not imported). Only its handler logic is modelled.
- TsAuth.NullPasswordLogin: assumes the `password_hash` column accepts `NULL`. If it is `NOT NULL`, the insert of a body without `password` throws and is a 500, and the null-password login cannot happen.
- Text.ToLower: lower-cases ASCII letters only; the `toLowerCase` of other scripts is not modelled. `trim` uses the exact ECMAScript white-space and line-terminator set.
- Text.Utf16Length: a code point above U+FFFF counts as two units; lone surrogates, which a Dafny string cannot hold, are not modelled.
- FilesView.Preview: lengths are counted in Unicode characters, where JavaScript counts UTF-16 code units, so the two differ for characters outside the Basic Multilingual Plane.
- Kanban.Board.OnDragEnd: `start === finish` compares column arrays by identity, which is modelled as equal droppable ids. The droppable ids named by the drag library are columns of the board, and its source index is in range; both are preconditions, because the library guarantees them.
- Kanban columns are a map, so the key order of the JavaScript object (and so the column display order) is not modelled. A task whose status names an `Object.prototype` member such as `toString` makes the real `reduce` throw; that case is not modelled.
- `logout_user` is not a state transition of the model: it refers to the undefined `user` and `auth_token`, so calling it throws a `ReferenceError` after disconnecting the socket.
- Store: the awaited requests cannot interleave in the model, since each action runs to completion. zustand's rehydration from storage and the socket options are not modelled. The current user is a JSON object.
- `Store.AppStore.LoginUser`, `Store.AppStore.RegisterUser`, `Store.AppStore.InitializeAuthAction`: the server's answer is a parameter. It is not computed from the server model, though `Store.BodiesPassServerGuards` connects the request bodies to the server's guards.
- Express plumbing: the timeout and content-type middleware, static files, the SPA catch-all, the preflight handler, the global error handler, the mock endpoints and the other React views hold no logic beyond constants and wiring.
