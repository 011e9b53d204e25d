# IT-club membership backend: route handlers over in-memory collections

This project models the request handlers of an Express and MongoDB
membership backend for a student IT club:

- attendance sessions, one per date, each holding a record per member;
- member records;
- calendar events;
- the bearer-token gate (`verifyAdminToken`) that guards the admin routes.

Each MongoDB collection becomes an in-memory table held by a class. Each
handler becomes a method that returns the HTTP status code and updates the
table. The pure parts of the handlers become functions with lemmas:

- the JavaScript truthiness checks;
- the `$set` merge;
- the `Authorization` header split;
- the attendance status merge (`map` over `find`).

Modules, one per source file:

- `Documents` (documents.dfy): JavaScript values, documents as maps from
  field name to value, truthiness, property reads and the `$set` merge.
- `Auth` (auth.dfy): token extraction as string splitting, the three-way
  decision, and the middleware as a method over a request and a response.
- `Attendance` (attendance.dfy): the session list, the record projection of
  POST, the status merge of PATCH, and the handlers. The handlers keep at
  most one session per date, and that is the store's invariant.
- `Members` (members.dfy): `validateMemberData` and the CRUD handlers.
- `Calendar` (calendar.dfy): the POST presence check and the CRUD handlers,
  behind the gate.

Things the code does and the model follows:

- Members get only a presence check on `FullName`, `Email` and `StudentID`.
  There are no field formats, no uniqueness checks, and no validation on
  update, and the model has none either.
- Exceptions are modelled as outcomes. Reading a property
  of a `null` request entry during the attendance merge or projection is a
  TypeError that ends in a 500 with no write. The model returns `None`
  there and the handler returns 500.
- The token is the second piece of `authorization.split(" ")`. The scheme
  word is never checked, and an empty second piece counts as no token.

Parameters stand for what the model cannot see:

- `verify` is `jwt.verify` with the server's secret: a partial function
  from token to decoded payload, `None` where it throws.
- `toDate` is `new Date(...)`.
- `toObjectId` is `new ObjectId(...)` on a request value, `None` where it
  throws.
- `newId` is the id the driver generates on insert. The stores record every
  id they have handed out in `issued`, so an id is never reused.

## Model

| member | source | states |
|---|---|---|
| `Documents.SetFields` | routes/members.mjs:62-66 | `$set` of a body: every body field is overwritten or added, every other field keeps its value, and no field is dropped |
| `Documents.SetFieldsIdempotent` | routes/calendar.mjs:68-72 | applying the same update body twice leaves the document as applying it once |
| `Auth.Split` | middlewares/authMiddleware.mjs:10 | `split(" ")` never returns an empty list, no piece contains the separator, and joining the pieces with the separator gives back the header |
| `Auth.TokenOf` | middlewares/authMiddleware.mjs:10 | `authorization?.split(" ")[1]`: nothing for an absent header; a token only when the header has a space, and the token never contains a space (its exact value is stated by `Auth.TokenOfIsSecondWord`) |
| `Auth.HasToken` | middlewares/authMiddleware.mjs:12 | the negation of `!token`, read with the JavaScript truthiness of `Documents.Truthy`: no token exactly when the token is `undefined` or the empty string |
| `Auth.TokenOfIsSecondWord` | middlewares/authMiddleware.mjs:10 | the split-based token equals an independent reading of the header: the text after the first space up to the next space, and nothing when there is no space |
| `Auth.TokenIsSecondPiece` | middlewares/authMiddleware.mjs:10 | whatever the first word is, the token is the second space-separated piece, so the scheme word "Bearer" is never checked |
| `Auth.NoSpaceNoToken` | middlewares/authMiddleware.mjs:10-12 | a header with no space yields no token |
| `Auth.EmptySecondPieceNoToken` | middlewares/authMiddleware.mjs:10-14 | "Bearer " or a double space gives an empty second piece, which the `!token` check treats as no token |
| `Auth.Decide` | middlewares/authMiddleware.mjs:10-21 | no token (absent header, no space, or empty piece) gives NoToken; a token the verifier refuses gives InvalidToken; otherwise the decision is Admitted with the verifier's payload |
| `Auth.VerifyAdminToken` | middlewares/authMiddleware.mjs:8-22 | NoToken gives 401 with "No token provided". InvalidToken gives 401 with "Invalid token.". In both cases `req.admin` is untouched and `next` is not called. Admitted sets `req.admin` to the payload, sends nothing, and calls `next` exactly once |
| `Attendance.FindSession` | routes/attendance.mjs:80-82 | finds the first session with the date. It finds nothing exactly when no session has that date |
| `Attendance.AppendKeepsDatesDistinct` | routes/attendance.mjs:80-97 | inserting a session only when no session has its date keeps "at most one session per date" |
| `Attendance.ProjectRecord` | routes/attendance.mjs:93-96 | a request entry projects to a record exactly when it is not nullish and its `memberId` converts to an ObjectId. The record keeps only that id and the entry's `status` |
| `Attendance.ProjectRecords` | routes/attendance.mjs:93-96 | the projection fails exactly when some entry fails. Otherwise it has one record per entry, in the same order |
| `Attendance.EntryNames` | routes/attendance.mjs:134 | the `find` callback `r.memberId === record.memberId.toString()`: it throws exactly on a nullish entry, and it matches exactly when the entry is an object whose `memberId` field is the string of the stored id |
| `Attendance.Find` | routes/attendance.mjs:133-135 | a found entry is one of the request entries and names the member. A throw means some entry is nullish |
| `Attendance.FindFirst` | routes/attendance.mjs:133-135 | when several entries name a member, the first of them is found |
| `Attendance.FindNone` | routes/attendance.mjs:133-135 | when no entry names the member and none is nullish, nothing is found |
| `Attendance.FindThrows` | routes/attendance.mjs:133-135 | a nullish entry reached before any match makes `find` throw |
| `Attendance.FindSkips` | routes/attendance.mjs:133-135 | an entry that names another member does not change what `find` returns |
| `Attendance.MergeRecord` | routes/attendance.mjs:132-137 | a merged record keeps its `memberId`. Its status can change only when some request entry names that member. The merge fails exactly when `find` throws |
| `Attendance.MergeRecords` | routes/attendance.mjs:132-137 | the merge keeps the length and order of the stored records, and each position is the merge of the stored record at that position. It fails exactly when one position fails |
| `Attendance.MergeTakesFirstStatus` | routes/attendance.mjs:133-136 | a named record gets the status of the first entry naming it, and every other field stays |
| `Attendance.MergeKeepsUnnamed` | routes/attendance.mjs:136 | a record that no entry names is left unchanged |
| `Attendance.MergeWithoutNullsSucceeds` | routes/attendance.mjs:132-137 | with no `null` entry in the request, the merge never throws |
| `Attendance.MergeIgnoresStrangers` | routes/attendance.mjs:133-136 | an entry naming a member who has no record in the session changes nothing, wherever it stands in the request |
| `Attendance.MergeIdempotent` | routes/attendance.mjs:132-141 | applying the same PATCH records twice gives the same records as applying them once |
| `Attendance.AttendanceStore.GetByDate` | routes/attendance.mjs:29-59 | 401 exactly when the gate does not admit. Otherwise 404 exactly when no session has the date, and 200 returns the one stored session for that date, which is why `session[0]` is the whole answer |
| `Attendance.AttendanceStore.Post` | routes/attendance.mjs:69-102 | 401 without admission. 400 for a falsy `sessionDate` or non-array `records`. 400 when the date already has a session. 500 when the projection throws. Otherwise 201 and exactly one new session at the end of the list. Only 201 writes, and one session per date is preserved |
| `Attendance.AttendanceStore.Patch` | routes/attendance.mjs:112-146 | 401 without admission. 400 when `records` is not an array. 404 when there is no session for the date. 500 when the merge throws. Otherwise 200 and only that session's records are replaced by the merge. Only 200 writes |
| `Members.ValidateMemberData` | routes/members.mjs:8-13 | false exactly when at least one of `FullName`, `Email`, `StudentID` is missing or falsy |
| `Members.UpdateCanInvalidate` | routes/members.mjs:60-66 | an update with an empty `Email` yields a member that creation would refuse, because PATCH does not re-validate |
| `Members.MemberStore.List` | routes/members.mjs:16-21 | returns every stored member with 200 |
| `Members.MemberStore.GetById` | routes/members.mjs:27-36 | 404 exactly when no member has the id. Otherwise 200 with that member |
| `Members.MemberStore.Post` | routes/members.mjs:43-53 | 201 exactly when validation passes, and the body is stored unchanged with extra fields under a fresh id. Other members are never compared, so duplicates are accepted. 400 inserts nothing |
| `Members.MemberStore.Patch` | routes/members.mjs:60-72 | 404 with no change exactly when the id is absent. Otherwise 200, the `$set` merge is applied to that member only, and there is no validation |
| `Members.MemberStore.Delete` | routes/members.mjs:79-90 | 404 with no change exactly when the id is absent. Otherwise 200 and exactly that member is removed. Afterwards the id is absent, so GET by that id answers 404 |
| `Calendar.EventFieldsPresent` | routes/calendar.mjs:52 | false exactly when at least one of `title`, `date`, `type` is missing or falsy |
| `Calendar.UpdateCanClearTitle` | routes/calendar.mjs:66-72 | an update can set `title` to the empty string, which POST would refuse, because PATCH is not validated |
| `Calendar.EventStore.ListForMembers` | routes/calendar.mjs:9-13 | returns every event with 200 and needs no token |
| `Calendar.EventStore.List` | routes/calendar.mjs:20-24 | 200 exactly when the gate admits the caller, with the same events as the member-facing list. 401 otherwise |
| `Calendar.EventStore.GetById` | routes/calendar.mjs:31-40 | 401 exactly when the gate does not admit. Otherwise 404 exactly when no event has the id, and 200 with that event |
| `Calendar.EventStore.Post` | routes/calendar.mjs:47-59 | 401 without admission. Otherwise 201 exactly when `title`, `date` and `type` are all truthy, and the body is stored as given under a fresh id. Every other outcome inserts nothing |
| `Calendar.EventStore.Patch` | routes/calendar.mjs:66-78 | 401 exactly when the gate does not admit. Otherwise 404 with no change exactly when the id is absent, and 200 when it is present. On 200 only that event changes, by the unvalidated `$set` merge |
| `Calendar.EventStore.Delete` | routes/calendar.mjs:85-96 | 401 exactly when the gate does not admit. Otherwise 404 with no change exactly when the id is absent, and 200 when it is present. On 200 exactly that event is removed |

## Left out

- The MongoDB driver and store failures. Every 500 that comes from the
  driver, a connection failure, or a malformed `:id` (where
  `new ObjectId(req.params.id)` throws) is left out. Path ids are taken as
  the hex strings of valid ObjectIds.
- Attendance.AttendanceStore.GetByDate: returns the matched session without
  the `$lookup` join with the members collection, because that join is a
  database-side aggregation.
- GET `/sessions` (routes/attendance.mjs:9-26) is not modelled. It returns
  every session projected to its date, which is a query option of the
  driver.
- `new Date(...)` and `new ObjectId(...)` are parameters. Invalid Dates are
  not modelled. `new ObjectId(undefined)` generating a different fresh id
  on each call is not modelled, because `toObjectId` is a function.
- The driver writes a missing `status` (`undefined`) as `null`. The model
  keeps `Undefined`.
- `$set` with dotted paths, and `_id` fields in a body, are not modelled.
  On insert the driver would take `_id` as the id. On update it would
  refuse `_id`.
- Result order of `find({})` is not modelled, because lists are returned
  as maps from id to document.
- Response message texts are not modelled, except the gate's two messages.
  Payload shapes such as the `insertOne` or `updateOne` results are not
  modelled either.
- Concurrency is not modelled. The attendance date check and insert
  (routes/attendance.mjs:80-91) are two separate store calls. The model runs
  handlers one at a time and claims nothing about races.
- Numbers are reals. Floating-point rounding and NaN are not modelled.
- A synchronous exception thrown by `next()` would be caught and answered
  with "Invalid token.". It is not modelled, because the downstream
  handlers are asynchronous.
- routes/admins.mjs is not part of this model. It is bcrypt hashing, JWT
  signing and a secret from the environment. Registration checks for a
  duplicate with `findOne({ email })` (routes/admins.mjs:20), but it stores
  the field as `Email` (routes/admins.mjs:29). So when the body gives an
  `email`, the duplicate check never matches a stored admin.
- server.mjs is not part of this model. It mounts only the members and
  admins routers (server.mjs:20-21), so the attendance and calendar handlers
  are not reachable in that server. They are modelled as written.
