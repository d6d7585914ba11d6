# Bookmark API: a Dafny model

This project models the core of a small Express bookmark API.

- **The in-memory bookmark table** (`src/bookmarks/bookmarkRouter.js`). Three handlers work on one shared list of `{id, title, url, rating, desc}` records:
  - POST `/bookmarks` checks that `title`, `url` and `rating` are truthy. It gives the new record the last record's id plus one, appends it, and answers 201 with the record.
  - GET `/bookmarks/:id` answers 200 with the first record whose id equals the numeric path parameter, or 404.
  - DELETE `/bookmarks/:id` splices out the first such record and answers 200, or 404.
- **The application gate** (`src/app.js`):
  - `validateBearerToken` splits the `Authorization` header on single spaces. The request passes when the second piece equals the API token. The environment's token takes precedence over the configured one.
  - `morganSetting` picks the logging format.
  - `errorHandler` turns any error into a 500 response.

Modules, one per concern:

- `Wrappers` (`wrappers.dfy`): `Option`. `None` is JavaScript's `undefined`.
- `Http` (`http.dfy`): JSON values, JavaScript truthiness of a body field, thrown errors, and a handler's `Outcome`. An outcome is a reply, `next()`, or a throw.
- `Numbers` (`numbers.dfy`): the `+id` conversion of the path parameter (`ParseId`) and its inverse, decimal rendering (`ShowInt`).
- `JsString` (`jsstring.dfy`): `String.prototype.split(" ")` exactly, including the empty pieces that consecutive spaces produce, and its inverse `Join`.
- `App` (`app.dfy`): token selection, the bearer-token gate, the logging format and the error handler. All are pure functions, with lemmas that characterise exactly which headers pass.
- `BookmarkRouter` (`bookmarks.dfy`): the `Bookmark` record, the specification functions `FirstMatch` (what `find`/`findIndex` stop at) and `Remove` (what `splice(k, 1)` leaves), and the class `BookmarkStore`.
  - `BookmarkStore` holds the table as a `seq<Bookmark>` field, with one method per handler.
  - Each method states the whole new table and the response in terms of the old table.
  - Each method also keeps strictly increasing ids increasing.

The router file uses a `bookmarks` array that it never declares. Here it is the field `BookmarkStore.bookmarks`, initialised by the constructor.

POST on an empty table reads `.id` of `undefined` and throws a `TypeError`. Express hands that throw to the error handler. The model returns it as `Raise(...)` and leaves the table unchanged, instead of forbidding the call.

The repository's endpoint tests (test/bookmarks-endpoint.spec.js) exercise a database-backed router under `/api/bookmarks`, with a 1–5 rating range check, 204 on delete, PATCH and HTML escaping (test/bookmarks-endpoint.spec.js:90-115, :170-185, :198-205, :227-278). The router modelled here has none of these.

## Model

| member | source | states |
|---|---|---|
| `Numbers.ParseShowInt` | src/bookmarks/bookmarkRouter.js:52 | the numeric conversion of the path parameter reads the decimal rendering of any integer id back as that id |
| `JsString.Split` | src/app.js:21 | `split(" ")` yields at least one piece, no piece holds a space, and joining the pieces with single spaces gives the header back |
| `JsString.SplitJoin` | src/app.js:21 | splitting is the exact inverse of joining space-free pieces, so the pieces (empty ones included) are determined by the header |
| `App.ConfiguredApiToken` | src/config.js:4 | the configured token is the environment's when set and non-empty, else the default `abcd12345`, so it is never empty |
| `App.RequestApiToken` | src/app.js:19 | the token compared is either the environment's or the configured one, and it is non-empty whenever the configured one is |
| `App.RequestApiTokenPrecedence` | src/app.js:19 | a set, non-empty environment token wins over the configured one; otherwise the configured one is used; either way the compared token is non-empty |
| `App.ValidateBearerToken` | src/app.js:17-30 | the gate either passes the request on or answers 401 `{error:"Unauthorized Request"}`; a missing header is always rejected; a passing header contains a space (piece `[1]` is `undefined` when there is none) |
| `App.AcceptedHasBearerForm` | src/app.js:21 | a header that passes is a space-free scheme word, one space, the token, then nothing or a space-led tail |
| `App.BearerFormAccepted` | src/app.js:21-29 | for a space-free token, every header of that form passes, whatever the space-free scheme word and whatever follows the token after a space |
| `App.AcceptedExactly` | src/app.js:21-29 | for a space-free token, a header passes if and only if it has that form |
| `App.AnySchemeAccepted` | src/app.js:21 | the scheme word is never checked: `<word> <token>` passes for any space-free word and space-free token |
| `App.NoSpaceRejected` | src/app.js:21-28 | a header without a space (the empty header included) is rejected with 401, whatever the token |
| `App.DoubleSpaceRejected` | src/app.js:19-21 | two spaces after the scheme word make the second piece empty, so a non-empty token rejects the header |
| `App.SpacedTokenNeverAccepted` | src/app.js:21 | a token containing a space never equals a piece, so every request is rejected |
| `App.MorganFormat` | src/app.js:12-15 | the logging format is `tiny` exactly in production mode and `dev` otherwise |
| `App.ErrorHandler` | src/app.js:39-48 | every error becomes status 500; production sends exactly `{error:{message:"server error"}}`; other modes send exactly two fields, `message` with the error's message and then `error` with the error's enumerable own properties |
| `App.ProductionHidesError` | src/app.js:41-42 | in production the response is the same for every error |
| `App.DevelopmentShowsMessage` | src/app.js:43-46 | outside production, errors with different messages produce different responses |
| `BookmarkRouter.RatingCheckedForPresenceOnly` | src/bookmarks/bookmarkRouter.js:27-30 | a rating of 0 is rejected as missing, and any non-zero rating is accepted: there is no range check |
| `Http.Truthy` | src/bookmarks/bookmarkRouter.js:19-30 | a truthy field is present and not `null`; arrays and objects are always truthy; `""`, `0` and `false` are falsy |
| `BookmarkRouter.PostAccepted` | src/bookmarks/bookmarkRouter.js:19-30 | a body POST accepts has title, url and rating present, and a rating of 0 is never accepted |
| `BookmarkRouter.NextId` | src/bookmarks/bookmarkRouter.js:33 | the new id exceeds the last record's id and, when ids are increasing, every id in the table |
| `BookmarkRouter.IdReusedAfterDeletingLast` | src/bookmarks/bookmarkRouter.js:33 | after the last record is deleted, the next POST assigns that record's id again, whenever it followed its predecessor's id |
| `Numbers.ParseId` | src/bookmarks/bookmarkRouter.js:52 | a parameter without any digit converts to no number, so it matches no record |
| `BookmarkRouter.Matches` | src/bookmarks/bookmarkRouter.js:64 | a non-numeric parameter matches no record |
| `BookmarkRouter.ShowIntMatches` | src/bookmarks/bookmarkRouter.js:52 | the decimal rendering of a record's id matches that record |
| `BookmarkRouter.NewBookmark` | src/bookmarks/bookmarkRouter.js:34-40 | the stored record carries the assigned id and the body's title, url and rating, with `desc` the empty string when the body has none |
| `BookmarkRouter.FirstMatch` | src/bookmarks/bookmarkRouter.js:51-53 | the lookup finds the first index whose id equals the parsed parameter, or nothing when no record matches |
| `BookmarkRouter.Remove` | src/bookmarks/bookmarkRouter.js:71 | splicing out index k shortens the table by one, keeps the records before k, shifts the ones after it down by one, and drops exactly that record |
| `BookmarkRouter.IncreasingIdsOrdered` | src/bookmarks/bookmarkRouter.js:33 | ids that increase from each record to the next increase across the whole table, so they are pairwise distinct |
| `BookmarkRouter.AppendKeepsIdsIncreasing` | src/bookmarks/bookmarkRouter.js:33-41 | appending a record with the last id plus one keeps the ids increasing |
| `BookmarkRouter.RemoveKeepsIdsIncreasing` | src/bookmarks/bookmarkRouter.js:71 | splicing out any one record keeps the ids increasing |
| `BookmarkRouter.DeleteThenNotFound` | src/bookmarks/bookmarkRouter.js:63-71 | with increasing ids, after the matching record is deleted no record matches that id, so the next GET or DELETE of it answers 404 (a POST in between may hand the id out again) |
| `BookmarkRouter.PostThenFound` | src/bookmarks/bookmarkRouter.js:33-53 | with increasing ids, a GET by the id that POST just assigned finds exactly the appended record |
| `BookmarkRouter.BookmarkStore.constructor` | src/bookmarks/bookmarkRouter.js:33 | the table starts as the given records |
| `BookmarkRouter.BookmarkStore.FindIndex` | src/bookmarks/bookmarkRouter.js:63-65 | the linear scan returns the first matching index, or -1 exactly when no record matches |
| `BookmarkRouter.BookmarkStore.Post` | src/bookmarks/bookmarkRouter.js:16-45 | a falsy title, url or rating gives 400 `{error:"POST failed"}` and leaves the table unchanged; a valid body on an empty table throws and leaves it unchanged; otherwise exactly one new record with the last id plus one is appended after the unchanged old records, the answer is 201 with that record, and increasing ids stay increasing |
| `BookmarkRouter.BookmarkStore.GetById` | src/bookmarks/bookmarkRouter.js:49-60 | the handler answers 200 with the first matching record, or 404 `{error:"Bookmark not found"}`, and it cannot change the table |
| `BookmarkRouter.BookmarkStore.Delete` | src/bookmarks/bookmarkRouter.js:61-73 | with no match, the handler answers 404 and the table is unchanged; otherwise the new table is the old one without the record at the first matching index, the answer is 200 `{success:"Bookmark <id> Deleted"}` with the parameter as written, and increasing ids stay increasing |

## Left out

- ParseId: only an optional sign followed by ASCII digits converts to a number. JavaScript's unary plus accepts every other form `Number()` accepts, including surrounding whitespace, a whitespace-only string (which is 0, so `/bookmarks/%20` finds id 0), fractions with a zero fractional part (`"1.0"`), a trailing dot (`"1."`), exponents (`"1e0"`), and hexadecimal, binary and octal literals (`"0x1"`, `"0b10"`, `"0o7"`). The model treats all of those as matching no record. It also ignores the loss of precision beyond 2^53.
- JSON numbers are exact `real`s, and bookmark ids are mathematical integers. IEEE double rounding is not modelled. Neither are string or non-integer ids in the initial table, for which `id + 1` would concatenate or round.
- The GET `/bookmarks` list handler and `src/bookmarks/bookmarks-service.js` are not modelled. Their behaviour lives in the query builder and the database, which are not part of this model.
- `src/config.js` is modelled only for its `API_TOKEN` default. `NODE_ENV` is a parameter of `MorganFormat` and `ErrorHandler`, and the environment's `API_TOKEN` is a parameter of the token functions.
- Express itself is not modelled:
  - the mounting order of the middleware (morgan, helmet, cors, JSON body parsing, router);
  - the routing that passes a handler's thrown error to `ErrorHandler`;
  - the body parser's own rejections of malformed JSON.
  The `Authorization` header arrives as an optional string.
- Logging (`logger.error`, `console.error`) is left out because it is a side effect with no bearing on responses.
- Concurrency is left out. Requests are handled one at a time, as Node's single thread runs these synchronous handlers.
