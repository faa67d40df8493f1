# siro-backend: sessions, work orders and accounts, modelled in Dafny

This project models the core of `siro-backend`, a helpdesk back end in Go built
on Gin and MySQL. Staff of one unit raise work orders ("requests") for another
unit. Staff of the receiving unit take the orders, or their admin assigns them,
and the assignee (or an admin) finalizes them.

The core has three parts:

- **Sessions.** Login issues a 20-minute access JWT and a 7-day refresh JWT,
  and stores the pair in the `user_tokens` table, one row per user. The
  request middleware accepts a bearer token only if it is the access token
  stored for its user. So a later login, or a logout, revokes every earlier
  token. Refresh issues a new access token and leaves the refresh token as it
  is.
- **Work orders.** The handlers check guards in a fixed order, then run one
  SQL statement on the `work_orders` table. The list query builds a filter
  clause with one `?` placeholder per value. Pagination and the dashboard
  counts belong here too.
- **Accounts and uploads.** Profile and account updates, availability,
  account creation, and the clean-up of an old avatar file. Image uploads
  pass checks on size, extension and sniffed content type.

Each table is a class holding a map keyed by ID. Each SQL statement is one
method, and its `fail` argument stands for an error reported by the driver.
Handlers are methods over those tables and answer with a `Response`: the
status and the data, or the status and the error text the service sends.
The model never reads the clock, the environment, the file system or bcrypt.
Each `time.Now()` is an explicit `now` in nanoseconds. `JWT_SECRET` and
`BACKEND_URL` are string parameters. bcrypt's hash and compare are function
parameters. The JWT library is a record of three functions (sign, decode and
verify). `Consistent` states what the library guarantees: the tokens it signs
decode and verify, and under a byte-slice key such as the secret only an HMAC
method ever verifies.

Two behaviours of the code are worth stating up front:

- The refresh handler (`internal/controller/auth_controller.go:131-145`)
  never rotates the refresh token: it rewrites only the access half of the
  row, and `Scenarios.RefreshTwice` shows the same refresh token working
  again.
- `CreateUser` answers with availability "Offline", but its INSERT stores
  'Online' (`internal/repo/user_query.go:36`). The model keeps both, as
  `UserController.CreateUser` states.
- The users UPDATE (`internal/repo/user_query.go:84-88`) stores neither the
  e-mail nor the password hash, although the handlers set both (see
  "## Findings"). The table method and the two handlers that use it take the
  statement as a `UserUpdate` argument. `AsWritten` is the program as it
  stands. `Corrected` is the evidently intended statement.

## Model

| member | source | states |
|---|---|---|
| GoTime.UnixSeconds | pkg/utils/token.go:61 | `t.Unix()` is the whole second containing t, rounded towards minus infinity |
| Decimal.FormatInt | utils/file_helper.go:74 | `%d` writes one or more digits, with a leading '-' exactly for negative numbers |
| Decimal.Atoi | internal/controller/helpers.go:44 | `strconv.Atoi` accepts only an optional sign followed by digits, with a value inside the 64-bit range; a string starting with any other byte is an error |
| Decimal.AtoiFormatInt | internal/controller/helpers.go:44 | Atoi reads back every 64-bit value written in decimal |
| Decimal.StringToUint | utils/helper.go:5-11 | input Atoi rejects becomes 0; an accepted value is taken modulo 2^64, so negative values wrap |
| Decimal.StringToUintOfDecimal | utils/helper.go:5-11 | the decimal form of any n from 0 to the largest int converts back to n |
| Decimal.StringToUintWrapsNegative | utils/helper.go:10 | "-1" becomes 2^64-1, not 0 |
| Decimal.StringToUintZeroIsAmbiguous | utils/helper.go:6-9 | rejected input and "0" both give 0 |
| GoStrings.Split | internal/middlewares/auth_middleware.go:33 | `strings.Split` on one character gives at least one piece, and no piece contains the separator |
| GoStrings.JoinSplit | internal/middlewares/auth_middleware.go:33 | joining the pieces of a split with the separator gives back the original string |
| GoStrings.SplitWithoutSeparator | internal/middlewares/auth_middleware.go:33-34 | a string without the separator splits into itself alone |
| GoStrings.SplitAfterFirst | internal/middlewares/auth_middleware.go:33-39 | a separator-free prefix followed by the separator becomes the first piece, followed by the pieces of the rest |
| GoStrings.LastPieceIsSuffix | internal/controller/user_controller.go:28-29 | the last piece is a suffix of the string; it is preceded by the separator exactly when there is more than one piece |
| GoStrings.LastPieceAfter | internal/controller/user_controller.go:28-29 | whatever comes before the last separator, the last piece is the separator-free text after it |
| GoStrings.ContainsInfix | internal/controller/user_controller.go:23 | `strings.Contains` finds every infix |
| GoStrings.ToLower | utils/file_helper.go:42 | keeps the length, lowers each ASCII letter, and leaves no upper-case letter |
| GoStrings.Ext | utils/file_helper.go:42 | `filepath.Ext` is a suffix of the path that starts with '.' and contains no other '.' and no '/' |
| GoStrings.ExtEmpty | utils/file_helper.go:42 | the extension is empty exactly when the last path element has no '.' |
| Helpers.GetUserID | internal/controller/helpers.go:14-21 | succeeds exactly when the context holds a `uint` under "userID"; otherwise gives (0, false) |
| Helpers.GetCurrentUser | internal/controller/helpers.go:25-39 | 401 "Unauthorized" without a user ID in the context, 401 "User not found" when no row has that ID, and otherwise that row |
| Helpers.ParseID | internal/controller/helpers.go:42-50 | accepts exactly the Atoi values of at least 1; every other input gives 400 "Invalid ID format" |
| Helpers.ParseIDOfDecimal | internal/controller/helpers.go:42-50 | every ID from 1 to the largest int, written in decimal, parses to itself |
| Helpers.GetPaginationParams | internal/controller/helpers.go:60-79 | page is at least 1 and limit is between 1 and 100; missing, non-numeric or small values get the defaults 1 and 10; a limit above 100 becomes 100 |
| Helpers.PaginationDefaults | internal/controller/helpers.go:62-73 | without query parameters the result is page 1, limit 10 |
| SessionStore.TokenStore.SaveToken | repository/token_query.go:10-22 | the upsert leaves exactly the new pair in the user's row, and no other row changes; afterwards the new token is the only access token that matches; a failed upsert changes nothing |
| SessionStore.TokenStore.UpdateAccessTokenOnly | repository/token_query.go:25-30 | only the access token and its expiry change; the refresh token and its expiry stay; a missing row is left missing |
| SessionStore.TokenStore.CheckRefreshTokenValid | repository/token_query.go:33-53 | valid exactly when the row exists, holds this refresh token and has not expired; returns the stored expiry, or the zero time when the row is missing or the query fails |
| SessionStore.TokenStore.CheckAccessTokenValid | repository/token_query.go:57-68 | valid exactly when the stored access token equals the token; its expiry is not consulted |
| SessionStore.TokenStore.DeleteToken | repository/token_query.go:71-75 | the row is gone afterwards, and the rest is unchanged; a failed delete changes nothing |
| TokenCodec.SignedTokensDetermineClaims | pkg/utils/token.go:63-64 | two different claim sets never sign to the same token |
| TokenCodec.JwtConfig.InitJWT | pkg/utils/token.go:19-28 | the secret is set exactly when JWT_SECRET is non-empty and at least 32 bytes long; each fatal case has its own message |
| TokenCodec.AccessClaims | pkg/utils/token.go:57-62 | an access token carries exactly user_id, role, canCRUD and exp |
| TokenCodec.RefreshClaims | pkg/utils/token.go:71-74 | a refresh token carries only user_id and exp, with no role and no canCRUD |
| TokenCodec.GenerateAllTokens | pkg/utils/token.go:54-82 | succeeds exactly when both signings succeed; on success the expiries are now+20 min and now+7 days and the tokens are the signatures of the two claim sets; on failure every other result is empty or zero |
| TokenCodec.GenerateAccessTokenOnly | pkg/utils/token.go:87-103 | the access token with the 20-minute TTL, or an error with an empty token and the zero time |
| TokenCodec.GenerateRefreshTokenOnly | pkg/utils/token.go:108-122 | the refresh token with the 7-day TTL, or an error with an empty token and the zero time |
| TokenCodec.SingleTokensAreHalvesOfPair | pkg/utils/token.go:87-122 | whenever the pair can be issued, the single-token builders give exactly its two halves |
| TokenCodec.VerifyPassword | pkg/utils/token.go:43-49 | no error exactly when bcrypt's comparison succeeds; every mismatch is the same error |
| TokenCodec.Parse | internal/middlewares/auth_middleware.go:42-52 | a parsed token decodes, verifies under the key, passes the method check when asked, and is strictly before its exp; an undecodable token is Malformed |
| TokenCodec.IssuedAccessTokenParses | pkg/utils/token.go:56-64 | an issued access token parses, with the method check, to exactly its claims until one second before expiry |
| TokenCodec.RefreshParseSameTokens | internal/controller/auth_controller.go:82-84 | the refresh handler's parse, without the method check, accepts exactly the tokens (and claims) the middleware's parse accepts; a non-HMAC token is refused by both, as a wrong method by one and a bad signature by the other |
| AuthMiddleware.BearerToken | internal/middlewares/auth_middleware.go:33-39 | an accepted token never contains a space (the header must split into exactly two parts) |
| AuthMiddleware.BearerTokenExact | internal/middlewares/auth_middleware.go:33-39 | the accepted headers are exactly "Bearer " followed by a space-free token |
| AuthMiddleware.UserIDClaim | internal/middlewares/auth_middleware.go:57-62 | present exactly when user_id is a non-negative number, and then equal to it |
| AuthMiddleware.RoleClaim | internal/middlewares/auth_middleware.go:65-69 | the role claim when it is a string, otherwise "" |
| AuthMiddleware.CanCRUDClaim | internal/middlewares/auth_middleware.go:72-76 | true exactly when canCRUD is the boolean true |
| AuthMiddleware.ReadBearer | internal/middlewares/auth_middleware.go:20-62 | OPTIONS bypasses everything; every refusal is 401; a missing header gets its own message; a header that is not "Bearer <token>" gets "Invalid token format", a token that fails the parse "Invalid or expired token", and one without a numeric user_id "Invalid token claims: user_id"; a token is accepted exactly when it passes all three, and then yields its claims |
| AuthMiddleware.Authenticate | internal/middlewares/auth_middleware.go:15-92 | passes exactly when ReadBearer accepts the token and the token is the stored access token of its user; otherwise 401 "Session expired or logged out"; on pass the context gets userID, role and canCRUD |
| AuthMiddleware.AdminOnly | internal/middlewares/auth_middleware.go:94-109 | passes exactly non-OPTIONS requests whose context role is "Admin"; otherwise 204 for OPTIONS and 403 for the rest |
| AuthMiddleware.IssuedTokenReadsBack | internal/middlewares/auth_middleware.go:32-62 | an access token issued at login, sent as a bearer header, reads back as exactly its user, role and rights until a second before expiry |
| AuthController.LoginHandler | internal/controller/auth_controller.go:17-62 | an unknown address and a wrong password get the same 401; each failure leaves the table unchanged; success replaces the user's row with the new pair and returns tokens that match it, with the user's phone "" because the lookup by e-mail does not select it |
| AuthController.RefreshHandler | internal/controller/auth_controller.go:71-153 | the checks run in order (parse, user_id, stored token and expiry, handler's expiry check, user row, signing, update), each with its status and message; success rewrites only the access half of one existing row; with one clock reading the "Refresh token expired" branch cannot be taken |
| AuthController.LogoutHandler | internal/controller/auth_controller.go:158-179 | 401 without a user ID; otherwise 200 even if the delete fails; a successful delete removes exactly that user's row |
| FileHelper.ErrorText | utils/file_helper.go:37-64 | the error text of each refusal |
| FileHelper.DefaultImageConfig | utils/file_helper.go:25-32 | exactly .jpg, .jpeg and .png; exactly image/jpeg and image/png; 2 MiB limit; every extension has the form ToLower(Ext(...)) produces |
| FileHelper.ExtensionLookup | utils/file_helper.go:42 | a name ending in a lower-case '.'-suffix without another '.' or '/' has exactly that suffix as its looked-up extension (lower-casing changes nothing) |
| FileHelper.ExtOfSuffix | utils/file_helper.go:42 | a path ending in '.' followed by characters other than '.' and '/' has exactly that ending as its extension |
| FileHelper.ExtOfName | utils/file_helper.go:42 | a name followed by such an ending has that ending as its extension |
| FileHelper.AllowedExtensionsReachable | utils/file_helper.go:42-45 | every allowed extension is accepted for some file name |
| FileHelper.UpperCaseExtensionAccepted | utils/file_helper.go:42-43 | "x.JPG" is looked up as ".jpg", which is allowed |
| FileHelper.UploadName | utils/file_helper.go:74 | the generated name has no '/' when the folder and extension have none, and is longer than them |
| FileHelper.SaveUploadedFile | utils/file_helper.go:35-91 | size, extension, open, header read, content type and write are checked in that order; a size equal to the limit passes; the file is stored exactly when all pass, at "/uploads/<folder>/<name>" |
| FileHelper.GetBaseURL | utils/file_helper.go:94-99 | BACKEND_URL when it is set and non-empty, otherwise http://localhost:8080 |
| UserController.LastSegment | internal/controller/user_controller.go:28-29 | the last piece is a slash-free suffix of the URL |
| UserController.AvatarFileToDelete | internal/controller/user_controller.go:20-44 | a file is removed exactly when the URL contains "/uploads/avatar/" and its last segment is not "", "." or ".."; that file is uploads/avatar/<segment> |
| UserController.AvatarPathIsDirectChild | internal/controller/user_controller.go:31-37 | a removed path is always exactly uploads, avatar and a plain name, so it cannot leave the avatar folder |
| UserController.AvatarUrlDeletion | internal/controller/user_controller.go:22-37 | a URL ending in "/uploads/avatar/" plus a plain name has that file removed |
| UserController.StoredAvatarPath | utils/file_helper.go:74-90 | an accepted avatar is stored at "/uploads/avatar/" plus its generated name, and its extension has no '/' |
| UserController.GeneratedAvatarDeletable | internal/controller/user_controller.go:20-37 | every generated avatar name, under any base URL, is the file deleteOldAvatar removes |
| UserController.UploadedAvatarIsDeletable | internal/controller/user_controller.go:107-114 | an uploaded avatar's URL is later removed by deleteOldAvatar, and that removal targets exactly the stored file |
| UserController.ParseAvailability | internal/controller/user_controller.go:146-155 | only the four status names are accepted, and each parses to its own status |
| UserController.AvailabilityRoundTrip | internal/controller/user_controller.go:146-152 | a string parses to a status exactly when it is that status's name |
| UserController.Profile | internal/repo/user_query.go:21-32 | GetUserByID gives every column except the password hash, which stays "" |
| UserController.PersistedAsWritten | internal/repo/user_query.go:84-88 | the UPDATE as written keeps the stored e-mail and password hash whatever the handler set |
| UserController.PasswordChangeLost | internal/repo/user_query.go:84-88 | a new password hash set by a handler is not what the UPDATE as written stores |
| UserController.Persisted | internal/controller/user_controller.go:238-264 | the corrected UPDATE (not the program as written) stores the handler's e-mail, and a non-empty new password hash; ID and availability stay |
| UserController.Updated | internal/repo/user_query.go:84-88 | as written the e-mail and hash stay; corrected they become the handler's (a "" hash keeps the old one); both write name, unit, phone, role, rights and avatar, and keep ID and availability |
| UserController.UserTable.CreateUser | internal/repo/user_query.go:34-44 | the INSERT gets the next ID and stores availability 'Online' whatever the struct says |
| UserController.UserTable.UpdateUser | internal/repo/user_query.go:84-88 | the row becomes PersistedAsWritten(old row, user) for the statement as written, Persisted(old row, user) for the corrected one; a missing row or a failure changes nothing |
| UserController.UserTable.UpdateAvailability | internal/repo/user_query.go:90-93 | only the availability of that row changes |
| UserController.AvatarRemoval | internal/controller/user_controller.go:74-80 | the old avatar file is removed only when a non-empty new avatar differs from a non-empty old one |
| UserController.UpdateMe | internal/controller/user_controller.go:56-97 | name and phone are always overwritten, the avatar only by a non-empty value; a new password is stored only with the corrected UPDATE, and as written the handler answers 200 and keeps the old hash; e-mail, role, unit, rights and availability stay; each failure (hashing, update) has its message and leaves the table unchanged; the old avatar is removed even when a later step fails |
| UserController.UpdateUser | internal/controller/user_controller.go:220-270 | 400 for a bad ID, 404 for a missing user; the body's name, role, unit, phone and rights are stored, and its e-mail only with the corrected UPDATE (as written it answers 200 and keeps the old e-mail); avatar and password as in UpdateMe; no other row changes |
| UserController.UpdateAvailability | internal/controller/user_controller.go:134-163 | the ID is checked first, then an empty status (400 "Invalid input"), then one of the four names; the update succeeds also for an ID without a row |
| UserController.InitialAvatar | internal/controller/user_controller.go:191-194 | the given avatar, or `<base>/uploads/default-avatar.jpg` |
| UserController.CreateUser | internal/controller/user_controller.go:178-217 | a hashing or insert failure leaves the table unchanged; success stores the new account under the next ID as 'Online' and answers 201 with it showing "Offline" |
| WorkOrderRepo.ErrorText | internal/repo/workorder_query.go:199-201 | a take that changes no row reports "tiket sudah diambil" |
| WorkOrderRepo.WorkOrderTable.CreateWorkOrder | internal/repo/workorder_query.go:102-112 | the INSERT gets the next ID and status Pending whatever the draft says, with nothing assigned or completed; a failure changes nothing |
| WorkOrderRepo.WorkOrderTable.TakeWorkOrder | internal/repo/workorder_query.go:193-203 | succeeds exactly on an existing unassigned order, setting In Progress, the assignee and taken_at; otherwise "already taken" and no change |
| WorkOrderRepo.WorkOrderTable.AssignWorkOrder | internal/repo/workorder_query.go:205-209 | sets In Progress and the assignee, replacing any earlier one; a missing order is no error and no change |
| WorkOrderRepo.WorkOrderTable.FinalizeWorkOrder | internal/repo/workorder_query.go:211-215 | sets Completed, the note, completed_at and the completer, and keeps the assignee |
| WorkOrderRepo.RenderedPlaceholders | internal/repo/workorder_query.go:160-169 | rendered SQL has one '?' per placeholder when the fixed text has none |
| WorkOrderRepo.RenderJoin | internal/repo/workorder_query.go:156 | rendering a joined list of conditions is `strings.Join` of the rendered conditions |
| WorkOrderRepo.StatusClause | internal/repo/workorder_query.go:133-141 | an empty status adds nothing; otherwise one clause whose placeholders match its values |
| WorkOrderRepo.EqualsClause | internal/repo/workorder_query.go:142-149 | an empty value adds nothing; otherwise one clause with one placeholder and the value |
| WorkOrderRepo.DateClause | internal/repo/workorder_query.go:150-152 | only "today" adds a clause, and that clause has no placeholder |
| WorkOrderRepo.Clauses | internal/repo/workorder_query.go:133-152 | at most four clauses, each with matching placeholders; none exactly when no filter is given |
| WorkOrderRepo.WhereClause | internal/repo/workorder_query.go:154-157 | empty exactly when there are no conditions |
| WorkOrderRepo.JoinedPlaceholders | internal/repo/workorder_query.go:156 | joining balanced conditions with " AND " keeps the text free of '?' and gives one placeholder per value |
| WorkOrderRepo.WherePlaceholders | internal/repo/workorder_query.go:154-160 | the WHERE clause has exactly as many placeholders as the argument list has values |
| WorkOrderRepo.WhereClauseCases | internal/repo/workorder_query.go:133-157 | no filters give no WHERE clause and no values; "active" gives the IN clause with Pending and In Progress |
| WorkOrderRepo.ActiveWhereText | internal/repo/workorder_query.go:133-157 | the "active" WHERE clause renders as " WHERE " followed by "w.status IN (?, ?)" |
| WorkOrderRepo.BuildFilter | internal/repo/workorder_query.go:130-152 | the appends produce exactly the conditions and values of the filters, in order |
| WorkOrderRepo.Wrap64 | internal/repo/workorder_query.go:165 | the 64-bit result is congruent to the product and equal to it when it fits |
| WorkOrderRepo.Offset | internal/repo/workorder_query.go:165 | (page-1)*limit whenever that fits in 64 bits |
| WorkOrderRepo.OffsetsTile | internal/repo/workorder_query.go:165 | page 1 starts at row 0, and each page starts where the previous one ends |
| WorkOrderRepo.OffsetOverflows | internal/repo/workorder_query.go:165 | an extreme page number wraps the offset to a negative value |
| WorkOrderRepo.TotalPages | internal/repo/workorder_query.go:182 | the least page count covering every item: 0 exactly for no items |
| WorkOrderRepo.Successes | internal/repo/workorder_query.go:175-180 | an order is listed exactly when some row scanned to it |
| WorkOrderRepo.ScanRows | internal/repo/workorder_query.go:175-180 | the scan loop keeps exactly the rows that scan, in order |
| WorkOrderRepo.ListPlaceholders | internal/repo/workorder_query.go:166-167 | the ORDER/LIMIT/OFFSET tail adds exactly two placeholders |
| WorkOrderRepo.QueryPlaceholders | internal/repo/workorder_query.go:160-169 | the count query has one placeholder per filter value, and the list query two more |
| WorkOrderRepo.GetWorkOrders | internal/repo/workorder_query.go:126-191 | both queries are built from the same WHERE clause; the argument list always fits the placeholders; it returns the scanned orders and the page metadata, or an error with nothing |
| WorkOrderRepo.GetDashboardStats | internal/repo/workorder_query.go:69-100 | incoming counts the orders addressed to the unit, pending and in progress those of them with that status (together at most incoming); outgoing counts the orders whose requester has a users row in the unit; every count is bounded by the table |
| WorkOrderController.CreateGuard | internal/controller/workorder_controller.go:58-83 | a non-admin whose canCRUD is missing or not a bool gets a 500 (the panic), canCRUD false gets 403; then the unit must be selected and must not be the caller's own |
| WorkOrderController.TakeGuard | internal/controller/workorder_controller.go:183-192 | only an order of the caller's unit that is not Completed may be taken; the unit check comes first |
| WorkOrderController.AssignGuard | internal/controller/workorder_controller.go:228-250 | the order's unit, the assignee's existence, the assignee's unit and the status are checked in that order |
| WorkOrderController.FinalizeGuard | internal/controller/workorder_controller.go:285-301 | an order of the caller's unit with an assignee may be finalized by that assignee or an admin; the status is not checked |
| WorkOrderController.NewOrder | internal/controller/workorder_controller.go:86-96 | a new request is Pending, from the caller, to the chosen unit, with nothing assigned or completed |
| WorkOrderController.CreateWorkOrder | internal/controller/workorder_controller.go:52-119 | guard failures change nothing; success stores NewOrder under the next ID and answers 201 with the stored row; a failed re-read after the insert answers 500 with the row already stored |
| WorkOrderController.TakeRequest | internal/controller/workorder_controller.go:166-201 | caller, ID, visibility and TakeGuard checks, then the conditional take; an order that is assigned already answers 409; failures change nothing; no completed order loses its assignee |
| WorkOrderController.AssignStaff | internal/controller/workorder_controller.go:204-260 | caller, ID, visibility and AssignGuard checks, then the assignment; success implies the assignee exists; failures change nothing |
| WorkOrderController.FinalizeOrder | internal/controller/workorder_controller.go:263-311 | caller, ID, visibility and FinalizeGuard checks, then completion with the note (or ""); a finalized order is Completed and has an assignee |
| Scenarios.LaterAccessTokenDiffers | pkg/utils/token.go:56-64 | access tokens issued a second or more apart differ |
| Scenarios.SecondLoginRevokesFirst | internal/controller/auth_controller.go:39-52 | after a second login, the first, unexpired access token is refused as logged out, and the new one passes |
| Scenarios.LogoutEndsSession | internal/controller/auth_controller.go:158-179 | a token accepted before logout is refused after it |
| Scenarios.IssuedRefreshTokenParses | pkg/utils/token.go:69-76 | an issued refresh token parses to its claims, with its user ID, until a second before expiry |
| Scenarios.RefreshTwice | internal/controller/auth_controller.go:131-145 | the same refresh token works twice, since refresh does not rotate it |
| Scenarios.TakeRace | internal/repo/workorder_query.go:193-203 | of two takes of a new order, the first wins and the second is refused |
| Scenarios.OrderLifecycle | internal/repo/workorder_query.go:193-215 | create, assign and finalize give a Completed order with its assignee, note and completer; a later take changes nothing |
| Scenarios.NewPasswordLostByUpdateMe | internal/repo/user_query.go:84-88 | through UpdateMe, a new password answers 200 but is not stored by the UPDATE as written; the corrected UPDATE stores it |
| Scenarios.NewEmailLostByUpdateUser | internal/repo/user_query.go:84-88 | through the admin's UpdateUser, a new e-mail answers 200 but is not stored by the UPDATE as written; the corrected UPDATE stores it |
| Scenarios.CompletedRequestRefusesTake | internal/controller/workorder_controller.go:189-192 | through the handlers, a finalized request is refused to a take with 400 "Request already completed" |

## Left out

- JSON binding of request bodies, with the "Invalid input: ..." answers (400): the model starts from bound inputs. The exceptions are the optional finalize note and the empty availability status.
- The bodies of bcrypt and of the JWT library: they are parameters. Signing uses a fixed HS256 header, as the source does.
- File-system effects: creating folders and files, copying the upload, `os.Remove`. The model states which file would be written or removed.
- `LogActivity` and the activity log.
- Evaluation of SQL. The count and the scanned rows of the list query are inputs. `GetWorkOrders` is stated on the query text and arguments it builds. The model does not evaluate the filters.
- Driver errors of read queries in the handlers: a failed lookup is modelled as a missing row, except the re-read after CreateWorkOrder's insert.
- Scanning a work order whose requester has no users row fails (the LEFT JOIN columns are NULL). The model treats such an order as not found (`Visible`).
- WorkOrderRepo.TotalPages: assumes the float division and `math.Ceil` are exact, which holds for counts within float precision.
- AuthMiddleware.UserIDClaim: treats a negative or fractional user_id claim as missing; Go's conversion of such floats to `uint` is not modelled.
- The closing "Invalid token claims" branch of the middleware (internal/middlewares/auth_middleware.go:86) and the "Invalid token format" branch of the refresh handler: claims parsed into `jwt.MapClaims` always have that type, so neither branch is modelled.
- HashPassword (pkg/utils/token.go:32-39) is the `hash` parameter of the handlers. The lookup by e-mail in LoginHandler is its `account` argument. GetWorkOrderById is the `Visible` lookup.
- TokenCodec.GenerateAllTokens: reads one clock value for both expiries, where the source calls `time.Now()` twice.
- AuthController.RefreshHandler: the repository's check uses `now` and the handler's own expiry check uses `later`. These stand for the two clock readings of the source.
- AssignStaff's `assigneeId` arrives as a number; a body without it (bound as 0) is not distinguished from an unknown user.
- GetMe, UploadFile, UploadWorkOrderEvidence, GetStaffList, GetAllUsers, DeleteUser, GetStats and GetActivities: thin wrappers around a query or an upload. Their parts (`GetCurrentUser`, `SaveUploadedFile`, `GetBaseURL`, `AvatarFileToDelete`, `GetDashboardStats`) are modelled.
- WorkOrderRepo.GetDashboardStats: the driver errors of its two queries are not modelled.
- TokenCodec.Parse: golang-jwt also refuses a token whose `nbf` claim lies in the future; the model ignores `nbf`, which the tokens this service signs never carry.
- GoStrings.ToLower: folds ASCII letters only, where Go's `strings.ToLower` folds all of Unicode. No non-ASCII letter folds to a letter of .jpg, .jpeg or .png, so which uploads are accepted does not change.
- Concurrency between requests: each statement is one atomic step, and requests run one after another (`Scenarios.TakeRace`).

## Findings

| source | as written | input that shows it | evidently intended | confidence | as-written member | corrected member |
|---|---|---|---|---|---|---|
| internal/repo/user_query.go:84-88 | the UPDATE writes name, unit, phone, role, can_crud and avatar_url, but neither email nor password_hash | UpdateMe with a new password: the handler sets a new hash and answers 200, but the stored hash stays the old one (likewise UpdateUser with a new e-mail) | the e-mail and, when set, the new password hash are stored, as the handlers at internal/controller/user_controller.go:82-94 and 238-264 assume | high (not executed) | UserController.PersistedAsWritten, UserController.PasswordChangeLost, Scenarios.NewPasswordLostByUpdateMe | UserController.Persisted, UserController.UserTable.UpdateUser |
