# SIMASOSIAL backend: request decisions and the token gate

This project models the decision logic of the SIMASOSIAL campus social-activity
backend, an Express server over MySQL. Two parts are modelled:

- `Server.js`: the registration, login and admin activity handlers, plus the
  values each derives. These are the enrolment year `angkatan`, the INSERT
  tuple of a new activity, and the UPDATE statement with its optional image
  column. Path normalisation of uploaded images is also covered.
- `middleware/verifyToken.js`: the bearer-token gate in front of every
  protected route.

Every library call is an input to the model:

- A database result is `Ok(value)` or `Failed(code)`.
- `bcrypt.hash` gives `Option<string>` and `bcrypt.compare` gives `Option<bool>`. `None` means the call failed.
- `jwt.sign` is a function from the payload to a string.
- `jwt.verify` is a function from the token to `Option<Claims>`.

Each handler is a function from its inputs to a `Handled` value. That value holds the
one reply the handler writes to `res` (status and JSON body) and the statement it sent
to the database, if any (text plus parameter tuple). The middleware is imperative.
The class `TokenGate.Exchange` holds `req.user`, the reply written to `res`, and a count of `next()` calls.

Modules:

- `Js` (`js.dfy`): JavaScript values, truthiness, `||`, property access, `split(' ')` and global one-character `replace`.
- `Sql` (`sql.dfy`): statements built from column lists, the `?` count of their text, and what an INSERT or an UPDATE writes into a row.
- `Http` (`http.dfy`): replies and handler results.
- `TokenGate` (`token_gate.dfy`): `verifyToken`.
- `Server` (`server.dfy`): the handlers.

Behaviour of the code that is easy to misread:

- The token is element 1 of `split(' ')`, splitting on single spaces rather than on any whitespace.
- An empty `Authorization` header gives the token `""`. That token is not `== null`, so it is not refused with 401. It goes on to verification, which the token library refuses for an empty string, giving 403 "Token tidak valid.".
- The update endpoint checks no required field. Only create requires `judul`, `tipe` and `tanggal_mulai`.
- A numeric NIM has no `length`, so its `angkatan` is `null`.

## Model

| member | source | states |
|---|---|---|
| `Js.Split` | middleware/verifyToken.js:5 | `split` on one separator always yields at least one piece, so `[0]` exists |
| `Js.SplitJoin` | middleware/verifyToken.js:5 | joining the pieces of a split with the separator restores the header exactly |
| `Js.SplitPiecesFree` | middleware/verifyToken.js:5 | no piece contains the separator |
| `Js.SplitCount` | middleware/verifyToken.js:5 | a split yields one piece more than there are separators |
| `Js.SplitAfterWord` | middleware/verifyToken.js:5 | a separator-free word followed by a separator becomes its own first piece |
| `Js.SplitWhole` | middleware/verifyToken.js:5 | a string without the separator splits into itself alone |
| `Js.Element` | middleware/verifyToken.js:5 | indexing past the end of the pieces gives `undefined`, otherwise the piece |
| `Js.ReplaceAll` | Server.js:250 | the global replace keeps the length, maps each matching character to the replacement and leaves the others, so none remains |
| `TokenGate.BearerToken` | middleware/verifyToken.js:4-5 | `authHeader && authHeader.split(' ')[1]`: no header gives no token, and a token never contains a space. `TokenAbsent`, `TokenAfterScheme`, `EmptyToken` and `TokenShape` pin down the rest |
| `TokenGate.TokenAbsent` | middleware/verifyToken.js:4-7 | the token is `undefined` exactly when the header is missing or is a non-empty string with no space |
| `TokenGate.TokenAfterScheme` | middleware/verifyToken.js:5 | `"<scheme> <token>"` with no other spaces yields the token, e.g. `Bearer abc` gives `abc` |
| `TokenGate.EmptyToken` | middleware/verifyToken.js:5-7 | an empty header and `"Bearer "` both give the token `""`, which is not `undefined` |
| `TokenGate.TokenShape` | middleware/verifyToken.js:5 | a token taken from a non-empty header is the space-free text between its first and second space |
| `TokenGate.EmptyHeaderVerified` | middleware/verifyToken.js:5-15 | an empty header and `"Bearer "` skip the 401 branch and are decided by verification of `""` |
| `TokenGate.EmptyHeaderRefused` | middleware/verifyToken.js:5-15 | when the token library refuses the empty string, an empty header and `"Bearer "` both get 403 "Token tidak valid." and the handler does not run |
| `TokenGate.Gate` | middleware/verifyToken.js:7-17 | the request is refused as missing exactly when there is no token, and as invalid exactly when the token does not verify. An admitted request carries exactly the payload verification returned |
| `TokenGate.Guarded` | Server.js:236 | a route mounted behind `verifyToken` (also lines 216 and 281): unless the gate admits the request, the reply is 401 or 403 and no query is sent. Otherwise the result is the handler's, run on the decoded payload |
| `TokenGate.Exchange.VerifyToken` | middleware/verifyToken.js:3-19 | exactly one of these happens: a 401 "token missing" reply; a 403 "token invalid" reply with `req.user` untouched; or `req.user` set to the decoded payload, `next()` called once and no reply |
| `TokenGate.Exchange.Dispatch` | middleware/verifyToken.js:12-18 | when mounted before a handler, the handler's reply is written only after `next()`, and the reply is that of the guarded route. `req.user` holds the decoded payload when the gate admits the request and is untouched otherwise |
| `Sql.UpdateSnoc` | Server.js:296-302 | splicing `, c = ?` before the WHERE clause is the same as adding `c` to the SET list |
| `Sql.UpdateCount` | Server.js:296-302 | an UPDATE has one `?` per assigned column plus one for the key |
| `Sql.InsertCount` | Server.js:257-261 | an INSERT has one `?` per parameter cell; literal cells such as `'published'` add none |
| `Sql.BindLiteral` | Server.js:260 | a literal cell writes its literal whatever parameters are sent |
| `Server.Cohort` | Server.js:77-80 | `angkatan` is set exactly when the NIM is a string of length ≥ 2. Then it has length 4, starts with `"20"` and ends with the NIM's first two characters. Otherwise it is `null` |
| `Server.Register` | Server.js:69-104 | 400 exactly when `nama`, `nim`, `email` or `password` is falsy, and then no INSERT. The INSERT is sent exactly when the fields are present and hashing succeeded. When hashing fails the reply is 500 "Terjadi kesalahan pada server." with no INSERT. `jurusan` and `telepon` are optional |
| `Server.RegisterValues` | Server.js:87 | the INSERT tuple has one value per user column, with the derived `angkatan` in the `angkatan` slot and the hash in the `password` slot |
| `Server.RegisterOutcome` | Server.js:89-97 | after hashing, the INSERT is sent. `ER_DUP_ENTRY` gives 409, any other error 500, success 201 |
| `Server.RegisterRow` | Server.js:86-87 | the INSERT has as many `?` as values. The row stores the derived `angkatan`, the submitted email and the hash in `password` |
| `Server.Login` | Server.js:107-153 | 400 exactly when `email` or `password` is falsy, and exactly then no lookup is made. Statuses are only 200, 400, 401 or 500 |
| `Server.LoginOutcome` | Server.js:114-151 | with both fields present the SELECT by email is sent. A failed SELECT gives 500 "Kesalahan server database.", and a failed compare gives 500 "Kesalahan server saat login.". No row and a mismatch both give 401 "Email atau password salah.", and a match gives the 200 session reply |
| `Server.Payload` | Server.js:133-137 | the token payload gives admin access exactly when the user row's `role` is the string `admin` |
| `Server.LoginDoesNotLeak` | Server.js:121-131 | an unknown email and a wrong password give identical replies (status and message) and send the same query |
| `Server.LoginSuccess` | Server.js:125-146 | 200 exactly when the first row matches the password. The reply then carries a token signed over exactly `{userId, nama, role}` of that row, and the row's role |
| `Server.SessionAdmitted` | Server.js:133-140 | if the token library round-trips and tokens hold no space, a login token sent as `Bearer <token>` passes the gate with `req.user` equal to the login payload. Handlers therefore see the role the user had at login |
| `Server.IsAdmin` | Server.js:238 | the check (also lines 218 and 282) is strict `!== 'admin'`: only the string `admin` passes, and any other value (a number, `null`, `undefined`, another string) is refused |
| `Server.ListActivities` | Server.js:216-231 | 200 with the rows exactly when the caller is admin and the SELECT succeeded. The SELECT ordered by `created_at` is sent exactly for an admin, and a failed SELECT gives 500 "Kesalahan server database." |
| `Server.NormalizePath` | Server.js:250 | the stored path has no backslash, keeps its length, and is the upload path with each `\` replaced by `/` |
| `Server.ImageUrl` | Server.js:292 | `gambar_url` is `null` exactly when no file was uploaded, otherwise the normalised path |
| `Server.Target` | Server.js:265-266 | a target (also lines 306-307) is never `null` or `undefined`. It is 0 unless `tipe` is its own type. When it is not 0 it is the truthy submitted value, and a truthy value of the right type is kept |
| `Server.ActivityValues` | Server.js:263-268 | the seven values the INSERT and the UPDATE (lines 304-308) share, one per column of `ActivityColumns`. `ActivityValuesCoerced` states their coercions |
| `Server.ActivityValuesCoerced` | Server.js:263-268 | a target is never null. It is kept only when `tipe` is `donasi` (for `target_donasi`) or `volunteer` (for `target_peserta`) and is truthy; otherwise it is 0. A falsy `deskripsi` or `lokasi` becomes `null`, and a truthy one is stored as submitted |
| `Server.CreateActivity` | Server.js:236-277 | for an admin, 400 exactly when `judul`, `tipe` or `tanggal_mulai` is falsy. An INSERT is sent exactly when the reply is 201 or 500 |
| `Server.CreateSqlCount` | Server.js:257-261 | the INSERT into `activities` has 8 `?`, one per parameter. The `'published'` literal adds none |
| `Server.CreateRow` | Server.js:257-268 | the row the INSERT writes has status `published`, and its `gambar_url` is the eighth parameter |
| `Server.CreateTargets` | Server.js:257-268 | the row's `target_donasi` and `target_peserta` are the parameters bound to those columns |
| `Server.CreateOutcome` | Server.js:263-276 | a complete admin request sends the seven shared values plus `gambar_url`. A failed insert gives 500, success 201 with the inserted id |
| `Server.UpdateStatement` | Server.js:296-313 | the UPDATE's parameters are the seven shared values, then the image when it is truthy, then the id. There is one parameter per SET column plus one for the id |
| `Server.BuildUpdate` | Server.js:296-313 | the spliced text and the pushed values make the UPDATE over the SET list. The `?` count equals the number of values. There are 9 values with a truthy image and 8 without, and the id is always last |
| `Server.UpdateText` | Server.js:296-302 | the optional `, gambar_url = ?` clause is exactly the image column added to the SET list |
| `Server.UpdateAligned` | Server.js:304-313 | the `?` count equals the values count equals the SET columns plus one, and the last value is the id |
| `Server.UpdateActivity` | Server.js:281-325 | the UPDATE is sent exactly when the caller is admin, with no field check. 404 exactly when an admin's update affected 0 rows |
| `Server.UpdateKeepsImage` | Server.js:292-313 | without a new file the stored `gambar_url` is kept, and with one it is replaced. The seven text and target columns are overwritten and `status` is untouched |
| `Server.UpdateOutcome` | Server.js:315-324 | for an admin the statement sent is the UPDATE. An error gives 500, 0 affected rows 404, otherwise 200 |
| `Server.AdminFirst` | Server.js:238-240 | a non-admin gets 403 from list, create and update before any validation or query. An invalid body from a non-admin is a 403, not a 400 |
| `Server.WritesNeedAdminToken` | Server.js:236-240 | through `verifyToken`, an activity INSERT or UPDATE is only sent for a verified token whose payload role is `admin` |

## Left out

- Database access is not modelled: the connection, SQL execution and SQL semantics. Each query result is an input. `Sql.Write` only says which column receives which parameter.
- SQL text whitespace: the statements are built from their column lists in one line. The line breaks and indentation of the source's template literals are not reproduced, and SQL ignores them. The SELECT texts are kept as written.
- bcrypt salting, hashing and comparison are cryptographic library calls, so they are inputs. Whether the stored hash differs from the password is a property of bcrypt.
- JWT signing, signature checking and the one-hour expiry are library cryptography and wall-clock time. `verify` is an input, so the expiry boundary is not modelled. The `iat` and `exp` fields that a decoded payload also carries are not modelled. `jwt.sign` is taken never to throw.
- multer's disk storage is not modelled: the `Date.now()` file names and any upload left on disk after a 400 or 403. It is file-system behaviour, and the uploaded file is only its path here.
- multer's own failures are not modelled. The create and update routes run `upload.single('gambar')` between `verifyToken` and the handler (Server.js:236, 281), and a multer error skips the handler. `Guarded` and `Dispatch` take the handler to run whenever the gate admits the request.
- Static file serving, CORS and JSON middleware, `app.listen` and console logging are framework wiring and I/O.
- `GET /`, `GET /api/users`, `GET /api/dashboard-data` (hard-coded figures), `GET /api/my-activities` and `GET /api/activities/:id` are not modelled. They are single pass-through queries or constants outside the modelled handlers.
- Activity deletion, its cascading purge of registrations and donations, the role-update endpoint and the admin profile endpoints are not part of this model. Their code is not among the files modelled.
- JavaScript values are limited to `undefined`, `null`, booleans, whole numbers and strings. Fractional numbers, `NaN`, and arrays or objects as body fields are not modelled. For example, an array `nim` would make `substring` throw.
- Strings are sequences of characters. JavaScript's UTF-16 code units and the driver's formatting of `undefined` parameters as `NULL` are not modelled.
- Each handler's single `res.status(..).json(..)` call is its returned `Reply` value rather than a mutation of a response object. Only the middleware's `res` and `req` are modelled as state.
