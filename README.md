# TracknFlow: a verified model of the ticket, auth and board logic

TracknFlow is a small Kanban-style ticket tracker. An Express server keeps
users and tickets in PostgreSQL and authenticates requests with JWT bearer
tokens. A React client shows the tickets in status columns, lets users drag
cards between columns, and guards its pages behind a login.

This project models the decision logic of both halves in Dafny and proves
what that logic promises:

- **Server tables.** `server/models/Ticket.js` and `server/models/User.js`
  become classes over an in-memory table whose ids the store assigns from 1.
  The SET list of the partial update and the WHERE list of the filtered query
  are kept as data. Each is given the meaning the database gives it and proved
  to mean what the code intends.
- **Ticket handlers** (`server/controllers/ticketController.js`) are methods
  from the caller's id and the request to a status, a body and the new table.
  They include the ownership check, which cannot tell an absent ticket from a
  foreign one.
- **Auth** (`server/controllers/authController.js`,
  `server/middleware/authMiddleware.js`). bcrypt and jsonwebtoken are function
  parameters (hash, compare, sign, verify). The bearer token comes from
  `split(' ')[1]`, with the 401/403/next decision.
- **Board** (`client/src/components/Tickets/Dashboard.jsx`). The state
  handlers of the dashboard form a class: the optimistic drag update (found by
  a `findIndex` loop), append, replace by id, and the two-step delete. The
  partition of tickets into columns takes the column names as a parameter.
- **Forms** (`client/src/pages/Register.jsx`, `client/src/pages/Login.jsx`).
  Each has its ordered rule chain per field, the keyword mapping of a server
  error to a field, and the error-clearing `onChange` handlers.
- **Session** (`client/src/contexts/AuthContext.jsx`,
  `client/src/components/PrivateRoute.jsx`). The session is a state machine
  over token, user and loading, and the guard makes a three-way render
  decision.

JavaScript values that matter are modelled explicitly in module `Js`:
- `undefined`, `null` and strings, and their truthiness;
- `a || b` on strings;
- `split(' ')` and `join(' ')`;
- `toLowerCase` and `includes`;
- string `.length` in UTF-16 code units;
- `parseInt` and `Number.prototype.toString`;
- loose `==` between a number and a digit string.

The files and their modules:

| file | module | source |
|---|---|---|
| base.dfy | Base | `Option` and `Result` |
| js.dfy | Js | the JavaScript semantics above |
| ticket_store.dfy | TicketStore | server/models/Ticket.js |
| ticket_controller.dfy | TicketController | server/controllers/ticketController.js |
| user_store.dfy | UserStore | server/models/User.js |
| auth_controller.dfy | AuthController | server/controllers/authController.js |
| auth_middleware.dfy | AuthMiddleware | server/middleware/authMiddleware.js |
| board.dfy | Board | client/src/components/Tickets/Dashboard.jsx |
| form_rules.dfy | FormRules | the email and password rules Register.jsx and Login.jsx share |
| register_page.dfy | RegisterPage | client/src/pages/Register.jsx |
| login_page.dfy | LoginPage | client/src/pages/Login.jsx |
| private_route.dfy | PrivateRoute | client/src/components/PrivateRoute.jsx |
| auth_context.dfy | Session | client/src/contexts/AuthContext.jsx |

Where the design description and the code disagree, the model follows the
code:

- **Status and priority.** The design says status and priority are fixed
  enumerations, validated on the server. The code validates neither, and
  `TicketController.StatusStoredAsGiven` states that any truthy string is
  stored as given.
- **`updated_at`.** The design says every mutation refreshes it. No code
  shown sets or refreshes it, so it is not modelled.
- **Uniqueness.** The design calls usernames and emails unique. The code
  checks only the email, in `register` before inserting. The model proves that
  `register` keeps the emails distinct; usernames may repeat.
- **`update` validation.** The design says `update` refuses an empty title.
  The code refuses only a body with no field supplied, and then with 500 (the
  model's throw), not 400.

## Model

| member | source | states |
|---|---|---|
| TicketStore.Supplied | server/models/Ticket.js:38-57 | The fields the update sets are exactly those whose argument is not `undefined`. Each appears once, in the order title, description, status, priority. |
| TicketStore.Patched | server/models/Ticket.js:38-67 | The reference partial update: each supplied field takes its argument, `null` and `''` included. Every omitted field, the id and the owner are kept. |
| TicketStore.PatchRows | server/models/Ticket.js:63-67 | The table keeps its length and order. Only rows with the id are patched; every other row is unchanged. |
| TicketStore.PushIfSupplied | server/models/Ticket.js:38-57 | One `if (x !== undefined)` step keeps three things aligned with the fields supplied so far: `fieldsToUpdate` (the k-th is `f = $(k+1)`), `values` and `paramCounter` (their count plus one). |
| TicketStore.PrepareUpdate | server/models/Ticket.js:33-64 | It fails with "No fields to update" exactly when all four arguments are `undefined`. Otherwise the assignments are the supplied fields numbered `$1..$n` without gaps, and `values` holds their arguments followed by the ticket id. The id placeholder is `$(n+1)`. |
| TicketStore.PreparedIsExecutable | server/models/Ticket.js:36-64 | Every placeholder of the built statement is bound and their number equals `values.length`: the SET placeholders and the id's are distinct. Every SET placeholder binds a text value, and no column is assigned twice. |
| TicketStore.ApplySetList | server/models/Ticket.js:64-66 | Running a SET list built from a field list gives each listed field its argument and keeps the others, the id and the owner. |
| TicketStore.ApplySupplied | server/models/Ticket.js:38-66 | On a row, the SET list of exactly the supplied fields performs the reference partial update. |
| TicketStore.PreparedPatchesRow | server/models/Ticket.js:63-66 | The statement `updateTicket` builds runs, and on the row it selects it performs the reference partial update. |
| TicketStore.PreparedUpdateExecutes | server/models/Ticket.js:63-66 | On any table, the database's execution of the built statement equals the reference patch of the row with that id. |
| TicketStore.ActiveFilters | server/models/Ticket.js:89-100 | The filters that take part are exactly the truthy ones: user id non-zero, status and priority non-empty strings. |
| TicketStore.PushIfActive | server/models/Ticket.js:89-100 | One `if (x)` step pushes the value and then `column = $<values.length>`. Conditions and values stay aligned: the k-th condition uses `$(k+1)`. |
| TicketStore.PrepareSelect | server/models/Ticket.js:84-104 | The k-th condition tests the k-th truthy filter (user id, then status, then priority) against `$(k+1)`, and `values` holds their values. With no truthy filter there is no WHERE. |
| TicketStore.FilterRows | server/models/Ticket.js:84-107 | The reference meaning of the filters: a row is kept exactly when it is in the table and satisfies every truthy filter. |
| TicketStore.MatchesByColumn | server/models/Ticket.js:89-100 | A row matches the filters exactly when each truthy filter's column equals its value under SQL `=`. |
| TicketStore.SatisfiesByPosition | server/models/Ticket.js:102-106 | A row satisfies the conditions built from a column list exactly when every column of the list holds. |
| TicketStore.SatisfiesIffMatches | server/models/Ticket.js:102-106 | A row satisfies the AND of conditions built from exactly the truthy filters exactly when it matches the filters. |
| TicketStore.SelectRowsIsFilter | server/models/Ticket.js:102-107 | The rows the database selects with the built WHERE list are the reference filtered rows, in table order. |
| TicketStore.AllMatchWithoutFilters | server/models/Ticket.js:85-107 | With no truthy filter (including empty-string filters), every row of every user is returned. |
| TicketStore.PreparedSelectReturnsMatches | server/models/Ticket.js:84-107 | A query built as `getTickets` builds it is executable, with every placeholder bound, and returns exactly the reference filtered rows. |
| TicketStore.OwnedBy | server/models/Ticket.js:22-28 | `WHERE user_id = $1` keeps exactly the rows owned by that user. |
| TicketStore.OwnedByIsFiltered | server/models/Ticket.js:22-28 | Listing by owner equals the filtered query with only a truthy user id supplied. |
| TicketStore.FirstWithId | server/models/Ticket.js:66-67 | `rows[0]` of a query on `id`: a row of the table with that id, or none exactly when no row has it. |
| TicketStore.WithoutId | server/models/Ticket.js:73-79 | After `DELETE ... WHERE id = $1`, exactly the rows with other ids remain. |
| TicketStore.WithoutIdRemovesOne | server/models/Ticket.js:73-79 | With distinct ids, deleting a present id removes exactly one row and deleting an absent id changes nothing. Ids stay distinct either way. |
| TicketStore.PatchRowsKeepsValid | server/models/Ticket.js:33-68 | A partial update keeps the table invariant: ids in range, no `undefined` column, distinct ids. |
| TicketStore.TicketTable.CreateTicket | server/models/Ticket.js:11-17 | Exactly one row is appended, with a fresh id and exactly the given owner and columns, and it is returned. |
| TicketStore.TicketTable.GetTicketsByUser | server/models/Ticket.js:22-28 | Read-only: returns exactly the rows owned by the user. |
| TicketStore.TicketTable.UpdateTicket | server/models/Ticket.js:33-68 | It throws "No fields to update" exactly when nothing is supplied, and then the table is unchanged. Otherwise the table becomes the reference patch, and the returned row is the one with that id. |
| TicketStore.TicketTable.DeleteTicket | server/models/Ticket.js:73-79 | Returns the row's prior contents, or `None` when the id is absent, and deletes every row with that id. An absent id leaves the table unchanged, and with distinct ids exactly one row goes. |
| TicketStore.TicketTable.GetTickets | server/models/Ticket.js:84-108 | Read-only: returns exactly the rows satisfying every truthy filter, in table order. |
| TicketController.FindByRouteId | server/controllers/ticketController.js:61 | `find` with loose `==`: it finds a ticket of the list whose id the route string denotes, and finds none exactly when no ticket's id is denoted. |
| TicketController.OwnedTicketAbsentOrForeign | server/controllers/ticketController.js:60-65 | The ownership check finds nothing exactly when every ticket the route id denotes is someone else's, or there is none. The two cases cannot be told apart. A found ticket is the caller's. |
| TicketController.OwnedTicketByDecimal | server/controllers/ticketController.js:61 | The route id `String(t.id)` of a ticket the caller owns always finds exactly that ticket. |
| TicketController.PatchSparesOthers | server/controllers/ticketController.js:60-67 | Updating the caller's ticket leaves every row of every other user as it was. |
| TicketController.Create | server/controllers/ticketController.js:17-37 | A falsy title or description gives 400 "Title and description are required" and stores nothing. Otherwise one row is added and returned with 201, owned by the caller, with a falsy status stored as 'todo' and a falsy priority as 'low'. An absent body gives 500. |
| TicketController.List | server/controllers/ticketController.js:42-50 | 200 with exactly the caller's tickets. |
| TicketController.Update | server/controllers/ticketController.js:55-73 | The cases are checked in order and each is an exact result. An absent body gives 500. A route id naming none of the caller's tickets gives 404 "Ticket not found or unauthorized". An owned ticket with no field supplied gives 500. In those three the table is unchanged. Otherwise the ticket's supplied columns change, and 200 returns the updated row. |
| TicketController.PatchedFound | server/models/Ticket.js:66-67 | After the patch, the row returned for the id is the patched ticket. |
| TicketController.Remove | server/controllers/ticketController.js:78-95 | A route id naming none of the caller's tickets gives 404 and changes nothing. Otherwise 200 returns `{ message: 'Ticket deleted', ticket }` with the deleted row, and no row with its id remains. |
| TicketController.ListFiltered | server/controllers/ticketController.js:100-105 | 200 with exactly the rows matching the caller's id and the truthy status and priority filters. |
| TicketController.ListFilteredScoped | server/controllers/ticketController.js:102-103 | For a truthy caller id, as every stored id is, the filtered list holds only the caller's tickets. Exactly those of them that match the truthy filters are included. |
| TicketController.ListFilteredUnscopedForZero | server/models/Ticket.js:89-92 | An id of 0 is falsy, so the owner filter disappears and every row is returned. |
| TicketController.RemovedNotListed | server/controllers/ticketController.js:89-90 | Once a ticket is deleted, the owner's list no longer contains it. |
| TicketController.StatusStoredAsGiven | server/controllers/ticketController.js:25-31 | Any truthy status and priority pass through as given, with no enumeration check. Only falsy ones get the 'todo' and 'low' defaults. |
| UserStore.FirstWithEmail | server/models/User.js:22-28 | `rows[0]` of `WHERE email = $1`: a row whose email equals the argument under SQL `=`, or none exactly when no row's email does. |
| UserStore.FirstWithEmailAppended | server/models/User.js:11-28 | After appending a row whose email matches, the lookup finds a row. The earlier match wins when there was one, and otherwise the lookup finds the new row. |
| UserStore.UserTable.CreateUser | server/models/User.js:11-17 | Exactly one row is appended, with a fresh id and exactly the given username, email and hashed password, and it is returned. |
| UserStore.UserTable.GetUserByEmail | server/models/User.js:22-28 | Read-only: returns a row with that email, or `None` exactly when there is none. |
| UserStore.CreatedUserFound | server/models/User.js:11-28 | After `createUser(u, e, h)`, `getUserByEmail(e)` returns some row with email `e`. |
| UserStore.FirstWithEmailUnique | server/models/User.js:22-28 | In a table with distinct emails, looking up a row's email finds that very row. |
| AuthController.Register | server/controllers/authController.js:16-44 | The refusals are checked in this order, each a 400 that stores nothing: a missing body gives "Missing request body", a falsy field gives "All fields are required", and a taken email gives "Email already registered". Otherwise exactly one row is stored, holding `hash(password)` rather than the password. The reply is 201 with the token signed over `{ id, email }` and `{ id, username, email }`. Distinct emails stay distinct. |
| AuthController.Login | server/controllers/authController.js:49-70 | An unknown email gives 401 "Invalid credentials". 200 comes exactly when the stored hash compares equal to the password. Any other reply is that same 401. A 200 carries the token for `{ id, email }` and `{ id, username, email }`. An absent body sends nothing. |
| AuthController.LoginFailuresIndistinguishable | server/controllers/authController.js:52-56 | An unknown email and a wrong password give the identical reply. |
| AuthController.GetMe | server/controllers/authController.js:75-96 | 404 "User not found" exactly when no row has the principal's email. Otherwise 200 with the public view of a row with that email. |
| AuthController.RegisterThenLogin | server/controllers/authController.js:28-69 | Take a registered row, and suppose bcrypt's compare accepts a password against its own hash. Then login with the same credentials succeeds with that row, and `getMe` for its email finds it. |
| AuthController.GetMeFindsTheRow | server/controllers/authController.js:79-91 | In a table `register` keeps free of duplicate emails, `getMe` answers with the one row of that email. |
| AuthMiddleware.ExtractToken | server/middleware/authMiddleware.js:16 | A missing header gives no token. A present header gives a second piece exactly when it holds a space, and that piece holds no space. |
| AuthMiddleware.SpaceSplits | server/middleware/authMiddleware.js:16 | `split(' ')` gives at least two pieces exactly when the string holds a space. |
| AuthMiddleware.AnySchemeAccepted | server/middleware/authMiddleware.js:16 | The scheme word is not checked: whatever space-free word precedes it, the token is extracted exactly. |
| AuthMiddleware.EmptySecondPiece | server/middleware/authMiddleware.js:16-20 | `"Bearer "` and a double space both leave an empty second piece, which the guard treats as no token. |
| AuthMiddleware.Decide | server/middleware/authMiddleware.js:15-29 | The decision is 401 "No token provided" exactly when the token is missing or empty. It is 403 "Invalid token" exactly when a token is present and verification fails. Otherwise the request proceeds with the verified payload. |
| AuthMiddleware.Authenticate | server/middleware/authMiddleware.js:15-29 | It makes that decision. On a refusal `req.user` is untouched; on success `req.user` is the decoded payload. |
| Js.JoinSplit | server/middleware/authMiddleware.js:16 | Joining the pieces of `split(' ')` with spaces gives the string back. |
| Js.SplitJoin | server/middleware/authMiddleware.js:16 | Splitting a space-joined list of space-free pieces gives the list back. |
| Js.ToLower | client/src/pages/Register.jsx:69 | `toLowerCase` keeps the length and lowers each character independently. |
| Js.ParseIntOfDecimal | client/src/components/Tickets/TicketCard.jsx:39 | `parseInt(String(n), 10)` is `n`: a card's draggable id gives its ticket id back. |
| Js.LooseEqualsDecimal | server/controllers/ticketController.js:61 | `n == String(n)` holds, and that string equals no other number loosely. |
| Board.Column | client/src/components/Tickets/Dashboard.jsx:218 | A column shows exactly the tickets whose status is its name. |
| Board.Columns | client/src/components/Tickets/Dashboard.jsx:210-218 | There is one column per name, in order, each showing exactly the tickets with that status. |
| Board.ColumnsPartition | client/src/components/Tickets/Dashboard.jsx:210-218 | With distinct names, no ticket is in two columns. A ticket is in some column exactly when its status is one of the names. |
| Board.ArchivedHiddenAsWritten | client/src/components/Tickets/Dashboard.jsx:17 | With the names as written, a ticket whose status is the modals' "Archivé" is in no column. |
| Board.ModalStatusesShown | client/src/components/Tickets/CreateTicketModal.jsx:10 | With the names the modals offer, every ticket with one of those statuses is in exactly one column. |
| Board.Moved | client/src/components/Tickets/Dashboard.jsx:53-63 | The optimistic update keeps length and order. The ticket at the first index with the id takes the new status, and every other ticket is unchanged. |
| Board.MovedWithoutMatch | client/src/components/Tickets/Dashboard.jsx:55-56 | When no ticket has the id (in particular for NaN), the list is unchanged. |
| Board.MovedAt | client/src/components/Tickets/Dashboard.jsx:55-61 | The move equals assigning one element at the first matching index. |
| Board.FindIndex | client/src/components/Tickets/Dashboard.jsx:55 | `findIndex` returns the first index whose ticket has the id, or -1 exactly when none has it. |
| Board.ReplaceById | client/src/components/Tickets/Dashboard.jsx:80-86 | Length is kept. Every changed position held the updated ticket's id and now holds the updated ticket, and nothing else appears. |
| Board.ReplaceByIdIdempotent | client/src/components/Tickets/Dashboard.jsx:80-86 | Replacing twice with the same ticket is replacing once. |
| Board.MovedIsReplace | client/src/components/Tickets/Dashboard.jsx:53-86 | With distinct ids, the drag update of a ticket equals replacing it by its copy with the new status. |
| Board.Dashboard.constructor | client/src/components/Tickets/Dashboard.jsx:22-27 | The board starts with no tickets, no selection, the modal closed and no deletion pending. |
| Board.Dashboard.ColumnsOf | client/src/components/Tickets/Dashboard.jsx:210-218 | The board's columns over its current tickets, each showing exactly the tickets with that status. |
| Board.Dashboard.HandleDragEnd | client/src/components/Tickets/Dashboard.jsx:41-69 | A drop outside any column, or back on its own position, changes nothing and sends nothing. Otherwise the tickets become the optimistic move, and one status request for the parsed id is sent. The status stays whatever the server answers, and the other state is untouched. |
| Board.Dashboard.AddTicket | client/src/components/Tickets/Dashboard.jsx:71-73 | The new ticket is appended and the existing ones are kept. |
| Board.Dashboard.HandleTicketClick | client/src/components/Tickets/Dashboard.jsx:75-78 | The ticket becomes selected and the details modal opens. The tickets are unchanged. |
| Board.Dashboard.HandleTicketUpdate | client/src/components/Tickets/Dashboard.jsx:80-86 | The tickets become the replace-by-id of the updated ticket. The other state is unchanged. |
| Board.Dashboard.HandleTicketDelete | client/src/components/Tickets/Dashboard.jsx:88-94 | The deletion becomes pending, the modal closes and the selection clears. The ticket stays listed. |
| Board.Dashboard.HandleDeletionComplete | client/src/components/Tickets/Dashboard.jsx:96-100 | Every ticket with the id is removed, and no deletion is pending. |
| Board.DeletedLeavesBoard | client/src/components/Tickets/Dashboard.jsx:96-100 | After the deletion completes, no column shows that id, and every other ticket keeps its column. |
| FormRules.EmailPatternIsLocal | client/src/pages/Register.jsx:36 | The unanchored test `/\S+@\S+\.\S+/` succeeds exactly when some `@` has a non-space before it and is followed by a run of non-spaces ending at a `.` that a non-space follows. |
| FormRules.PatternNeedsAtAndDot | client/src/pages/Register.jsx:36 | An address without `@` or without `.` fails the pattern. |
| FormRules.EmailError | client/src/pages/Register.jsx:34-38 | An empty email gives "Email is required". Otherwise a failed pattern gives "Please enter a valid email address". No error exactly when the pattern matches. |
| FormRules.PasswordError | client/src/pages/Register.jsx:40-44 | An empty password gives "Password is required". Otherwise fewer than six UTF-16 code units gives the length message. No error otherwise. |
| FormRules.KeywordAbsent | client/src/pages/Register.jsx:69-71 | A message that lacks, in any case, one character of a keyword does not include that keyword once lowercased. |
| FormRules.KeywordLeads | client/src/pages/Register.jsx:71 | A message whose lowercase form starts with the keyword includes it. |
| RegisterPage.UsernameError | client/src/pages/Register.jsx:26-32 | The first failing rule wins. Empty gives "required". Otherwise fewer than three code units gives the length message. Otherwise a character outside `[A-Za-z0-9_]` gives the charset message. No error exactly when none fails. |
| RegisterPage.ConfirmError | client/src/pages/Register.jsx:46-50 | Empty gives "Please confirm your password". Otherwise a value differing from the password gives "Passwords do not match". No error exactly when it repeats the password. |
| RegisterPage.AcceptedExactly | client/src/pages/Register.jsx:23-53 | The fields are checked independently. The form is accepted exactly when the username, email, password and confirmation all pass. |
| RegisterPage.FailureMessage | client/src/pages/Register.jsx:68 | The message is the server's when truthy, and otherwise 'Registration failed'. It is never empty. |
| RegisterPage.FailureErrors | client/src/pages/Register.jsx:67-75 | In any case, a message including "username" blames the username. Otherwise one including "email" blames the email. Otherwise the message becomes the general error. Exactly one key is set. |
| RegisterPage.NeitherKeyword | client/src/pages/Register.jsx:69-74 | A message lacking a character of "username" and one of "email" becomes the general error. |
| RegisterPage.LeadingEmail | client/src/pages/Register.jsx:71-72 | A message that starts with "email" in any case and has no 'u' blames the email field. |
| RegisterPage.EmailTakenClassified | server/controllers/authController.js:26 | The server's "Email already registered" starts with "email" and has no 'u', the facts `LeadingEmail` needs to blame the email field. |
| RegisterPage.EmailTakenIsEmail | client/src/pages/Register.jsx:67-75 | The server's "Email already registered" (server/controllers/authController.js:26) is shown on the email field as "Email is already registered". |
| RegisterPage.FieldsRequiredLacksN | server/controllers/authController.js:22 | "All fields are required" has no 'n'. |
| RegisterPage.FieldsRequiredLacksM | server/controllers/authController.js:22 | "All fields are required" has no 'm', which "email" contains. |
| RegisterPage.MissingBodyClassified | server/controllers/authController.js:17 | "Missing request body" has no 'a', which both keywords contain. |
| RegisterPage.FieldsRequiredIsGeneral | client/src/pages/Register.jsx:67-75 | The server's "All fields are required" (server/controllers/authController.js:22) is shown unchanged as the general error. |
| RegisterPage.MissingBodyIsGeneral | client/src/pages/Register.jsx:67-75 | The server's "Missing request body" (server/controllers/authController.js:17) is shown unchanged as the general error. |
| RegisterPage.DefaultLacksU | client/src/pages/Register.jsx:68 | "Registration failed" has no 'u'. |
| RegisterPage.DefaultLacksM | client/src/pages/Register.jsx:68 | "Registration failed" has no 'm'. |
| RegisterPage.NoMessageMapped | client/src/pages/Register.jsx:68-74 | A failure without a message, or with an empty one, shows 'Registration failed' as the general error. |
| RegisterPage.RegisterForm.constructor | client/src/pages/Register.jsx:14-21 | The fields start empty, with no errors and not loading. |
| RegisterPage.RegisterForm.ValidateForm | client/src/pages/Register.jsx:23-54 | `errors` becomes each field's first failing rule, and the result is true exactly when there is none. Nothing else changes. |
| RegisterPage.RegisterForm.HandleSubmit | client/src/pages/Register.jsx:56-79 | An invalid form shows its errors and sends nothing. A valid one sends username, email and password, never the confirmation. Success navigates to `/login` with no errors; failure shows the mapped error. After a send loading is off, as the `finally` makes it; an invalid form leaves it as it was. |
| RegisterPage.RegisterForm.OnUsernameChange | client/src/pages/Register.jsx:329-332 | The username takes the value, and only the username error clears. |
| RegisterPage.RegisterForm.OnEmailChange | client/src/pages/Register.jsx:360-363 | The email takes the value, and only the email error clears. |
| RegisterPage.RegisterForm.OnPasswordChange | client/src/pages/Register.jsx:392-398 | The password takes the value and its error clears. The confirmation error clears only when the new value equals the confirmation. |
| RegisterPage.RegisterForm.OnConfirmChange | client/src/pages/Register.jsx:445-448 | The confirmation takes the value, and only its error clears. |
| LoginPage.AcceptedExactly | client/src/pages/Login.jsx:20-37 | The form is accepted exactly when the email passes the pattern and the password has at least six code units. |
| LoginPage.FailureMessage | client/src/pages/Login.jsx:51 | The message is the server's when truthy, and otherwise 'Login failed'. It is never empty. |
| LoginPage.FailureErrors | client/src/pages/Login.jsx:50-60 | In any case: "email" first gives "Invalid email address". Then "password" gives "Incorrect password". Then "not found" gives "No account found with this email". Otherwise the message is the general error. Exactly one key is set. |
| LoginPage.NotFoundSubsumes | client/src/pages/Login.jsx:56 | The "user not found" test adds nothing to the "not found" test. |
| LoginPage.NoKeyword | client/src/pages/Login.jsx:52-59 | A message lacking a character of each of the three keywords becomes the general error. |
| LoginPage.InvalidCredentialsLacksM | server/controllers/authController.js:53 | "Invalid credentials" has no 'm'. |
| LoginPage.InvalidCredentialsLacksP | server/controllers/authController.js:53 | "Invalid credentials" has no 'p'. |
| LoginPage.InvalidCredentialsLacksO | server/controllers/authController.js:53 | "Invalid credentials" has no 'o'. |
| LoginPage.InvalidCredentialsIsGeneral | client/src/pages/Login.jsx:51-59 | The server's only login refusal, "Invalid credentials", always lands in the general error. |
| LoginPage.DefaultLacksM | client/src/pages/Login.jsx:51 | "Login failed" has no 'm'. |
| LoginPage.DefaultLacksP | client/src/pages/Login.jsx:51 | "Login failed" has no 'p'. |
| LoginPage.DefaultLacksU | client/src/pages/Login.jsx:51 | "Login failed" has no 'u'. |
| LoginPage.DefaultIsGeneral | client/src/pages/Login.jsx:51-59 | The default "Login failed" lands in the general error. |
| LoginPage.NoMessageMapped | client/src/pages/Login.jsx:51-59 | A failure without a message, or with an empty one, shows 'Login failed' as the general error. |
| LoginPage.LoginForm.constructor | client/src/pages/Login.jsx:14-18 | The fields start empty, with no errors and not loading. |
| LoginPage.LoginForm.ValidateForm | client/src/pages/Login.jsx:20-37 | `errors` becomes each field's first failing rule, and the result is true exactly when there is none. Nothing else changes. |
| LoginPage.LoginForm.HandleSubmit | client/src/pages/Login.jsx:39-64 | An invalid form shows its errors and sends nothing. A valid one sends the credentials. Success navigates to `/`; failure shows the mapped error. After a send loading is off, as the `finally` makes it; an invalid form leaves it as it was. |
| LoginPage.LoginForm.OnEmailChange | client/src/pages/Login.jsx:219-222 | The email takes the value, and only the email error clears. |
| LoginPage.LoginForm.OnPasswordChange | client/src/pages/Login.jsx:251-254 | The password takes the value, and only the password error clears. |
| PrivateRoute.Render | client/src/components/PrivateRoute.jsx:10-25 | The placeholder renders exactly while loading. The redirect to `/login` with `replace` happens exactly when it is not loading and has no user. The children render exactly when it is not loading and has a user. |
| Session.Mounted | client/src/contexts/AuthContext.jsx:15-29 | Loading ends in every case. With no token nothing else changes. With a token, a fetched profile sets the user to `data.user`, or `data` when there is none. A failed fetch removes the token and clears the user. |
| Session.SignedIn | client/src/contexts/AuthContext.jsx:31-35 | After a successful sign-in the token is the returned one and the user the returned one. |
| Session.LoggedOut | client/src/contexts/AuthContext.jsx:43-46 | After logout there is no token and no user. |
| Session.LogoutIdempotent | client/src/contexts/AuthContext.jsx:43-46 | Logging out twice is logging out once. |
| Session.LoginThenLogout | client/src/contexts/AuthContext.jsx:31-46 | A sign-in followed by logout ends where logout alone does. |
| Session.NoTokenRedirects | client/src/contexts/AuthContext.jsx:26-28 | With no stored token, once mounted, the protected routes redirect to `/login`. |
| Session.InitialShowsPlaceholder | client/src/contexts/AuthContext.jsx:12-13 | Before the mount effect settles, protected routes show the placeholder whatever is stored. |
| Session.SignInOpensRoutes | client/src/contexts/AuthContext.jsx:31-46 | After mounting, a sign-in that returns a user opens the protected routes, and a logout closes them again. |
| Session.HeaderCarriesToken | client/src/services/authApi.js:29-33 | The middleware extracts exactly the stored token from the header `Bearer ${token}` when the token has no space. |
| Session.AuthProvider.constructor | client/src/contexts/AuthContext.jsx:12-13 | The provider starts with the stored token, no user, and loading. |
| Session.AuthProvider.Mount | client/src/contexts/AuthContext.jsx:15-29 | The state becomes the settled mount. A profile request with `Bearer ${token}` is made exactly when a truthy token is stored. |
| Session.AuthProvider.Login | client/src/contexts/AuthContext.jsx:31-35 | A successful call stores the token and sets the user. A failed call is rethrown and changes nothing. |
| Session.AuthProvider.Register | client/src/contexts/AuthContext.jsx:37-41 | It does the same as `login`, but with `registerUser`. |
| Session.AuthProvider.Logout | client/src/contexts/AuthContext.jsx:43-46 | The token is removed and the user cleared. |

## Left out

- **Async, I/O and foreign libraries.** PostgreSQL, Express, axios, localStorage and React's scheduling are not modelled. Each asynchronous step is one sequential step whose server or library outcome is a parameter.
  - bcrypt's hash and compare and jsonwebtoken's sign and verify are uninterpreted function parameters.
  - The `expiresIn: '1d'` option and the `iat`/`exp` claims that jsonwebtoken adds are not modelled.
  - The cost factor 10 of `bcrypt.hash` is not modelled.
- **Database schema.** Column types, defaults and constraints are not part of this model. No UNIQUE or NOT NULL constraint is assumed, and ids come from a counter starting at 1. Rows come back in insertion order, although the SQL has no ORDER BY.
- **Timestamps.** `created_at` and `updated_at` are produced by the database and are not modelled.
- **JSON body values.** Only `undefined`, `null` and strings are modelled. Numbers, booleans, arrays and objects in request bodies are not.
- **Ticket route ids.** Loose `==` between a ticket id and the route `:id` is modelled only for non-empty strings of decimal digits. Other strings that JavaScript converts to numbers (such as " 7" or "7.0") are treated as denoting no ticket.
- **Update route id.** `TicketController.Update` and `TicketController.Remove` pass the found ticket's id to the model. The source passes the route string, which PostgreSQL casts to the same integer for the digit strings modelled.
- **The 500 catch in `getMe`.** With the in-memory table, `getMe` cannot throw, so its 500 branch is not modelled.
- **`listFiltered` failures.** `listFiltered` has no `try`, so in the source a failing query leaves the response unsent. The in-memory query never fails.
- **Login without a response.** `AuthController.Login` returns `NoResponse` where the source's async handler rejects: a missing body, or a password bcrypt refuses to compare. The rejection goes unhandled and no response is sent; what the process does then is not modelled.
- **Case folding.** `Js.ToLower` folds only ASCII letters. Only two non-ASCII characters lowercase to ASCII, U+0130 to "i" with a combining dot and U+212A to "k". Neither can complete one of the lower-case keywords the pages test, so the page mappings are unaffected.
- **Dashboard fetch.** The mount fetch of the dashboard (`fetchTickets` and the `loading` flag, Dashboard.jsx:29-39) is left out: it is a network call whose result only replaces `tickets`.
- **`handleAddCard`.** `handleAddCard` (Dashboard.jsx:102-106) only opens the create modal, and the modal's visibility flag is not modelled.
- **UI.** Markup, styling, animations, the password visibility toggles, the modals' forms, the filters component and the api wrappers are not modelled. TicketCard.jsx, TicketColumn.jsx, Header.jsx, UserMenu.jsx, LoadingScreen.jsx, ComingSoon.jsx, App.js and server.js are not part of this model.
- Board.Columns: the column names are a parameter. Dashboard.jsx:17 as written appears as `Board.StatusesAsWritten`, and the intended names as `Board.Statuses` (see Findings).

## Findings

| source | as written | input that shows it | evidently intended | confidence | as-written member | corrected member |
|---|---|---|---|---|---|---|
| client/src/components/Tickets/Dashboard.jsx:17 | The fourth column is named 'ArchivÃ©' (U+00C3 U+00A9), the UTF-8 bytes of "Archivé" read as Latin-1. | A ticket given status 'Archivé' (U+00E9) in CreateTicketModal.jsx:10 or TicketDetailsModal.jsx:10 appears in no column of the board. | The column 'Archivé', the name both modals offer, so that every status a user can pick is shown in exactly one column. | not executed | Board.ArchivedHiddenAsWritten | Board.ModalStatusesShown |
