# Informate events: a Dafny model

Informate is a campus event board. It has two halves:

- an Express/MySQL back end that serves and edits events;
- a React Native app whose admin screens create, edit and delete events.

This project models the event core of both halves, and the way they meet on the wire.

## What is modelled

- **Server store** (`Store`). The `events`, `bookmarks` and `users` tables form one immutable value. `events` is a map keyed by `event_id`, with an auto-increment counter. `bookmarks` is a multiset of (user, event) pairs. A column holds NULL, text or a number, exactly as the controller binds it.
- **Event list** (`EventQuery`). `getAllEvents` is modelled in three layers:
  - the SQL text and parameter list the controller builds: condition list, `?` marks and parameters, kept aligned;
  - binding those parameters into conditions, then filtering, ordering and counting bookmarks over the store;
  - the soft authentication that picks the bookmark user, where JWT verification is an oracle.
- **Categories** (`Categories`). The `SELECT DISTINCT … ORDER BY` of `getCategories` is built by sorted insertion. It is shown equal to the strictly ascending list of the non-empty categories in use.
- **Single-event endpoints** (`EventMutation`). These are `getEventById`, `createEvent`, `updateEvent` and `deleteEvent`, each a function from store and request to a new store and a response.
- **Upload** (`Upload`). This is `upload.single('banner_image')` with memory storage, the MIME whitelist and the 2 MiB limit. Checks run in multer's order: field, then filter, then size.
- **Routes** (`Routes`). The six routes are tried in registration order with Express's non-strict trailing slash. Each route is a middleware chain (authentication, upload) in front of one controller action. The authentication middleware is a gate: it either lets the request through with a user id or answers itself.
- **API client** (`ApiClient`). From `api.js`: header construction, the four request builders and response classification.
- **Admin forms** (`AdminForms`). `handleSave` on the create screen, plus `fetchDetail`, `handleUpdate` and `handleDelete` on the edit screen. This covers the form-to-payload mapping, the default values, the derivation of a file's extension and MIME type, and the normalisation of the start date.
- **Validators** (`Validators`). These are the change-password checks, the reset-password checks (including an explicit search for `/\S+@\S+\.\S+/`), the e-mail prefill and `getAvatarUrl`.
- **Across files** (`CrossFile`). A request the app builds is followed to what the router receives: the mount point is stripped, multipart fields become `req.body` and file parts become the upload's input. From there it is followed to what the store holds afterwards. This is where the Bearer round trip, the client-versus-server image-type agreement and the end-to-end create, edit and delete properties are proved.

Effects are parameters:

- JWT verification is `verify: string -> Option<UserId>`.
- The authentication middleware is `gate: Option<string> -> AuthResult`.
- A picked file's size on the device is `sizeOf: string -> nat`.
- `req.protocol` and the `Host` header are strings handed in.

### Notable behaviour of the code

- **Banner storage.** `createEvent` stores `req.file.filename`, and memory storage never sets a filename. So an event created with an image stores a NULL banner, and its `image_url` ends in `/uploads/undefined`. Without an image it stores `default_event.jpg`. See `EventMutation.CreateWithFileBanner`.
- **Default category.** Only the create screen supplies "Umum". The server stores whatever `kategori` it receives, NULL included.
- **Rejected images.** Multer's errors carry no HTTP status. Handled by Express's default error handler, they answer 500 (see "## Left out" for this assumption). See `Routes.UploadFailure`.
- **Banner on update.** `updateEvent` never changes the banner, even when a new image arrives. See `CrossFile.UpdateReachesController`.
- **Optional fields from the app.** The app sends every optional field as text, so the server's `|| 0` defaults never apply to it. An empty quota from the create screen is stored as the text "0". See `CrossFile.CreateStored`.
- **Missing category on edit.** The edit screen sends `String(null)` when the loaded event has no category. Saving stores the text "null". See `CrossFile.EditNullCategoryBecomesText`.

## Model

| member | source | states |
|---|---|---|
| EventQuery.SoftAuth | backend/controllers/eventController.js:11-21 | without an `Authorization` header the caller is anonymous |
| EventQuery.SoftAuthBearer | backend/controllers/eventController.js:14-17 | a `Bearer <token>` header identifies exactly the user the verifier gives for `<token>`; a failed verification is anonymous, never an error |
| EventQuery.ComposeList | backend/controllers/eventController.js:41-59 | the composed query has as many `?` marks as parameters, one more than its conditions demand, and the first parameter is the bookmark user (0 when anonymous) |
| EventQuery.ComposeListConditions | backend/controllers/eventController.js:44-59 | the query carries exactly the conditions of the non-empty filters, in clause order |
| EventQuery.ComposeListParamCount | backend/controllers/eventController.js:41-59 | the parameter count is 1 plus 1 for search, 1 for category, 2 for a month and year pair, 2 for a date range pair |
| EventQuery.ActiveConditionsExactly | backend/controllers/eventController.js:52-59 | a month without a year, or a start date without an end date, adds no clause |
| EventQuery.WithSearch | backend/controllers/eventController.js:44-47 | the search clause keeps the query aligned and appends one parameter after the existing ones |
| EventQuery.WithCategory | backend/controllers/eventController.js:48-51 | the category clause keeps the query aligned and appends one parameter after the existing ones |
| EventQuery.WithMonth | backend/controllers/eventController.js:52-55 | the month clause is added only with both month and year, with two parameters |
| EventQuery.WithDates | backend/controllers/eventController.js:56-59 | the date-range clause is added only with both dates, with two parameters |
| EventQuery.ComposeListBinds | backend/controllers/eventController.js:41-63 | binding the parameters to the `?` marks in order gives exactly the conditions the query string asked for, each with its own value |
| EventQuery.ExpectedBoundMeansMatches | backend/controllers/eventController.js:44-59 | a row satisfies the bound conditions iff it satisfies every supplied filter: name contains the search text, category equal, month and year of the start, start date within the inclusive range |
| EventQuery.LikeSubstring | backend/controllers/eventController.js:45-46 | `LIKE '%s%'` holds iff the name contains `s` |
| EventQuery.Select | backend/controllers/eventController.js:63 | the selected rows are exactly the stored rows that meet every condition |
| EventQuery.SortByStart | backend/controllers/eventController.js:61 | the result is a permutation of its input ordered by ascending start |
| EventQuery.InsertByStart | backend/controllers/eventController.js:61 | inserting into an ordered list keeps it ordered and adds exactly that row |
| EventQuery.Counted | backend/controllers/eventController.js:34 | each selected row keeps its place and carries the number of `(user, event)` bookmark rows in the store, the `COUNT(*)` subquery |
| EventQuery.Summaries | backend/controllers/eventController.js:66-69 | each row keeps its id and selected columns, and `is_bookmarked` is true iff its bookmark count is positive |
| EventQuery.GetAllEventsIs | backend/controllers/eventController.js:4-75 | the list endpoint always answers 200 with the matching rows by start, bookmark flags for the soft-auth user |
| EventQuery.ListSound | backend/controllers/eventController.js:44-59 | every listed row is a stored event that passes every supplied filter |
| EventQuery.ListComplete | backend/controllers/eventController.js:44-63 | every stored event that passes the filters is listed |
| EventQuery.ListOrdered | backend/controllers/eventController.js:61 | listed rows are non-decreasing by `tanggal_mulai` |
| EventQuery.ListBookmarkFlag | backend/controllers/eventController.js:34 | `is_bookmarked` is true iff the caller has bookmarked that event |
| EventQuery.GuestSeesNoBookmarks | backend/controllers/eventController.js:41 | an anonymous caller, or one whose token fails, sees every flag false |
| EventQuery.ListDistinct | backend/controllers/eventController.js:63-69 | no event is listed twice |
| Categories.InsertCategory | backend/controllers/eventController.js:84 | inserting into a strictly ascending list keeps it strictly ascending and adds exactly that name |
| Categories.CollectCategories | backend/controllers/eventController.js:84-89 | the list is strictly ascending and holds exactly the non-null, non-empty categories of stored events |
| Categories.GetCategoriesExact | backend/controllers/eventController.js:81-94 | the endpoint answers 200 with a strictly ascending list of exactly the categories in use |
| Categories.StrictlyAscendingUnique | backend/controllers/eventController.js:84 | two strictly ascending lists with the same elements are equal, so `DISTINCT … ORDER BY` has one answer |
| Categories.GetCategoriesDetermined | backend/controllers/eventController.js:84-89 | the answer depends only on the set of categories in use |
| EventMutation.Raw | backend/controllers/eventController.js:154-155 | a missing body field is bound as NULL, a present one as its text |
| EventMutation.OrZero | backend/controllers/eventController.js:156-157 | `x or 0`: a falsy field is stored as the number 0 |
| EventMutation.OrDash | backend/controllers/eventController.js:158 | `x or '-'`: a falsy contact becomes `-` |
| EventMutation.KeyOf | backend/controllers/eventController.js:114 | the decimal text of an id selects that id |
| EventMutation.Lookup | backend/controllers/eventController.js:192-195 | an id parameter finds a row iff it denotes a stored key |
| EventMutation.GetEventById | backend/controllers/eventController.js:101-123 | 200 iff the id names a stored event, otherwise 404 `Event tidak ditemukan` |
| EventMutation.ImageUrl | backend/controllers/eventController.js:163-165 | the URL starts with the request's scheme and `://`, names the request's host, and ends with the banner's name under `/uploads/` |
| EventMutation.CreateEvent | backend/controllers/eventController.js:131-175 | a missing name, date or place gives 400 before the 401 user check; otherwise 201 with the new id and exactly one row added, the other tables unchanged |
| EventMutation.UpdateEvent | backend/controllers/eventController.js:183-214 | an unknown id gives 404 and no change; otherwise 200 and only that row is replaced |
| EventMutation.DeleteEvent | backend/controllers/eventController.js:222-236 | an unknown id gives 404 and no change; otherwise 200 and exactly that row is removed |
| EventMutation.MutationsPreserveConsistent | backend/controllers/eventController.js:154-231 | create, update and delete keep ids below the counter and every bookmark's user id at least 1 |
| EventMutation.CreateThenGet | backend/controllers/eventController.js:144-171 | a created event reads back with its three required fields, `deskripsi` and `kategori` as sent, quota and price defaulted to 0, contact defaulted to `-`, the banner, and the caller as creator |
| EventMutation.CreateKeepsOthers | backend/controllers/eventController.js:154-161 | creating leaves every existing event as it was |
| EventMutation.CreateWithFileBanner | backend/controllers/eventController.js:145-165 | with an uploaded file the banner is NULL and the URL ends `/uploads/undefined`, because memory storage sets no filename |
| EventMutation.CreateWithoutFileBanner | backend/controllers/eventController.js:145-165 | without a file the banner is `default_event.jpg` and so is the URL's tail |
| EventMutation.UpdateThenGet | backend/controllers/eventController.js:198-209 | after an update the event reads back with the eight body columns replaced and its banner and creator kept |
| EventMutation.UpdateIdempotent | backend/controllers/eventController.js:183-214 | repeating an update changes nothing further |
| EventMutation.UpdateFrame | backend/controllers/eventController.js:198-209 | an update touches no other event, no bookmark, no user and not the counter |
| EventMutation.DeleteThenGet | backend/controllers/eventController.js:226-231 | after a delete, reading or deleting that id gives 404 and other events are untouched |
| EventMutation.CreateThenDelete | backend/controllers/eventController.js:154-231 | deleting a just-created event restores the events table but not the counter |
| Upload.ErrorMessage | backend/middleware/uploadMiddleware.js:10 | the filter's error carries the message `Format file tidak didukung! Hanya boleh JPG/PNG.` |
| Upload.Store | backend/middleware/uploadMiddleware.js:4 | memory storage keeps the part's name, type and size and sets no `filename` |
| Upload.Receive | backend/middleware/uploadMiddleware.js:6-20 | a second file or another field is refused first; an accepted file has the banner field, an allowed type and at most 2 MiB |
| Upload.SingleCharacterised | backend/middleware/uploadMiddleware.js:6-20 | the upload succeeds iff there is no file, or one banner file of an allowed type within the limit, which becomes `req.file` |
| Upload.SingleErrorOrder | backend/middleware/uploadMiddleware.js:6-17 | a wrong field is reported before a wrong type, and a wrong type before a size over the limit |
| Upload.AcceptanceIgnoresName | backend/middleware/uploadMiddleware.js:6-12 | acceptance does not depend on the file's name |
| Upload.SizeBoundary | backend/middleware/uploadMiddleware.js:17 | 2097152 bytes pass and 2097153 bytes are refused |
| Upload.FilterRejectsVariants | backend/middleware/uploadMiddleware.js:7 | the comparison is exact: case variants, parameters and other image types are refused |
| Routes.Trimmed | backend/routes/eventRoutes.js:6-8 | one trailing slash is ignored when matching a route |
| Routes.Segment | backend/routes/eventRoutes.js:7 | `/:id` captures one non-empty segment without `/` |
| Routes.MatchPattern | backend/routes/eventRoutes.js:6-8 | a literal route matches its path with or without a trailing slash, and `/` matches the empty path and `/` |
| Routes.FirstMatch | backend/routes/eventRoutes.js:6-17 | the chosen route is the first one whose verb and path match |
| Routes.UploadFailure | backend/middleware/uploadMiddleware.js:14-20 | an upload error reaches the default error handler and answers 500 |
| Routes.CategoriesBeforeId | backend/routes/eventRoutes.js:6-8 | `GET /categories` reaches the category list, never the id lookup; other one-segment paths are ids; the root lists events |
| Routes.WritesRouted | backend/routes/eventRoutes.js:11-17 | POST reaches create only at the root; PUT and DELETE reach update and delete exactly on one-segment paths |
| Routes.ReadsIgnoreGate | backend/routes/eventRoutes.js:6-8 | GET routes run no authentication and never change the store |
| Routes.WritesAuthenticateFirst | backend/routes/eventRoutes.js:11-17 | a write the gate blocks is answered by the gate and changes nothing |
| Routes.UploadRejectedAfterAuth | backend/routes/eventRoutes.js:11-16 | after authentication, a refused upload ends the request before the controller |
| Routes.DeleteIgnoresFiles | backend/routes/eventRoutes.js:17 | delete has no upload step, so its files do not matter |
| Routes.CreateReceivesContext | backend/routes/eventRoutes.js:11-15 | create runs with the gate's user and the uploaded file |
| Routes.UpdateReceivesId | backend/routes/eventRoutes.js:16 | update runs with the captured id and the body |
| Routes.DeleteReceivesId | backend/routes/eventRoutes.js:17 | delete runs with the captured id |
| Routes.OnlyAuthenticatedWrites | backend/routes/eventRoutes.js:11-17 | only a non-GET request the gate lets through can change the store |
| Routes.IdRoundTrip | backend/routes/eventRoutes.js:16-17 | `/<id>` reaches the update and delete routes with exactly `<id>` captured |
| ApiClient.HeaderValue | InformateApp/src/api.js:6-23 | a header is found iff one of that name is present, with its value |
| ApiClient.HeadersExact | InformateApp/src/api.js:6-23 | `Accept` and the ngrok header are always sent; `Authorization` iff a token is stored, as `Bearer <token>`; a JSON `Content-Type` iff the body is not a form |
| ApiClient.Encode | InformateApp/src/api.js:94-100 | a form is sent unchanged, anything else as JSON text |
| ApiClient.BuildersAgree | InformateApp/src/api.js:53-151 | every builder targets `API_URL + url`; GET and DELETE carry no body; a form is posted without a JSON content type |
| ApiClient.HandleResponse | InformateApp/src/api.js:26-48 | a JSON answer with an ok status resolves to its data; a non-ok one throws with status, data and `data.message` or `Request failed`; anything else throws `Invalid response format` |
| ApiClient.NonJsonIgnoresStatus | InformateApp/src/api.js:29-47 | a non-JSON answer is a format error whatever its status |
| ApiClient.CharsetStillJson | InformateApp/src/api.js:29 | any content type that starts with `application/json`, such as one with a charset, counts as JSON |
| AdminForms.Or | InformateApp/app/admin/create.tsx:107-111 | `x or d` on a text input: empty text takes the default |
| AdminForms.Extension | InformateApp/app/admin/create.tsx:116-117 | the extension is the text after the last `.` and contains no `.` |
| AdminForms.BannerPart | InformateApp/app/admin/create.tsx:119-123 | the file entry is `banner_image` with the image's URI, name `<stem>.<ext>` and type `image/<ext>` |
| AdminForms.HandleSave | InformateApp/app/admin/create.tsx:90-129 | an empty name, date or place alerts and sends nothing; otherwise a form is POSTed to `/events` |
| AdminForms.FieldValue | InformateApp/app/admin/create.tsx:104-111 | a form field read by name is the value of an entry with that name |
| AdminForms.CreatePayloadFields | InformateApp/app/admin/create.tsx:104-111 | the three required fields are sent verbatim; description, category, price, quota and contact default to empty, `Umum`, `0`, `0` and `-` |
| AdminForms.CreatePayloadBanner | InformateApp/app/admin/create.tsx:114-124 | a banner entry `photo.<ext>` of type `image/<ext>` is appended iff an image was picked |
| AdminForms.Served | backend/controllers/eventController.js:120-123 | a stored start reaches the client as its ISO text; other values unchanged |
| AdminForms.JsString | InformateApp/app/admin/edit.tsx:65-66 | `String(v)`: text is itself and null is `null` |
| AdminForms.NormaliseDate | InformateApp/app/admin/edit.tsx:55-57 | a falsy date gives empty text; text gives at most 19 characters |
| AdminForms.NormaliseIso | InformateApp/app/admin/edit.tsx:55-57 | replacing the first `T` and keeping 19 characters turns the ISO text of a time back into its stored `YYYY-MM-DD HH:MM:SS` form |
| AdminForms.FetchDetail | InformateApp/app/admin/edit.tsx:50-70 | the loaded form keeps name and category as received, holds price and quota as strings, and has no new image |
| AdminForms.UpdatePayloadFields | InformateApp/app/admin/edit.tsx:127-147 | name, date and place are sent as loaded; description, price, quota and contact are defaulted; category is not, so null is sent as `null`; the banner entry `updated_photo.<ext>` is appended iff a new image has a URI |
| AdminForms.HandleUpdate | InformateApp/app/admin/edit.tsx:121-150 | update sends a PUT of the form to `/events/<id>` with no required-field check |
| AdminForms.HandleDelete | InformateApp/app/admin/edit.tsx:163-172 | only a confirmed delete sends a DELETE to `/events/<id>`, without a body |
| AdminForms.UpdateAndDeleteShareTarget | InformateApp/app/admin/edit.tsx:150-172 | update and delete address the same URL |
| Validators.PasswordBody | InformateApp/app/admin/change-password.tsx:26-29 | the body has exactly `old_password` and `new_password` |
| Validators.ChangePassword | InformateApp/app/admin/change-password.tsx:17-29 | an empty password alerts first, then a mismatched confirmation; a request is sent iff both are filled and the confirmation matches, as a PUT to `/auth/change-password` |
| Validators.ConfirmationNotSent | InformateApp/app/admin/change-password.tsx:26-29 | the confirmation is never sent |
| Validators.TestEmail | InformateApp/app/auth/resetPassword.tsx:51 | the search finds a match iff the unanchored pattern `\S+@\S+\.\S+` matches somewhere |
| Validators.HandleReset | InformateApp/app/auth/resetPassword.tsx:45-58 | an empty email alerts first, then a non-matching one; the reset is requested iff the pattern matches, with that email |
| Validators.MatchImpliesNonEmpty | InformateApp/app/auth/resetPassword.tsx:46-52 | a matching address has at least five characters, so the two alerts never compete |
| Validators.EmailMatchesInContext | InformateApp/app/auth/resetPassword.tsx:51 | the pattern is unanchored: text around a match keeps it a match |
| Validators.EmailExamples | InformateApp/app/auth/resetPassword.tsx:51 | `a@b.c` matches; `a@b` and `a@ .c` do not |
| Validators.Prefill | InformateApp/app/auth/resetPassword.tsx:39-43 | a present `params.email` replaces the field; otherwise it is kept |
| Validators.Collapse | InformateApp/app/admin/profile.tsx:80 | the result contains no whitespace and is no longer than the name |
| Validators.CleanName | InformateApp/app/admin/profile.tsx:80 | a falsy name becomes `User`; the cleaned name has no whitespace |
| Validators.AvatarUrl | InformateApp/app/admin/profile.tsx:79-82 | the URL is the fixed prefix and suffix around a name without whitespace: `User` for a missing name, the name itself when it has no whitespace |
| Validators.CollapseIdentity | InformateApp/app/admin/profile.tsx:80 | a name without whitespace is left unchanged |
| Validators.CollapseRun | InformateApp/app/admin/profile.tsx:80 | a run of whitespace of any length between two words becomes exactly one `+` |
| Validators.CollapseAppend | InformateApp/app/admin/profile.tsx:80 | cleaning splits at a non-space character |
| Validators.CleanIdempotent | InformateApp/app/admin/profile.tsx:80 | cleaning a cleaned name changes nothing |
| CrossFile.RouterPath | InformateApp/src/api.js:3 | a URL reaches the event router iff it starts with the events base, leaving the rest as the router path |
| CrossFile.Received | InformateApp/src/api.js:58-140 | the router sees the client's verb, the path after the base, and the `Authorization` header as sent |
| CrossFile.ReceivedForm | InformateApp/src/api.js:90-122 | a multipart request arrives with its fields as `req.body` and its file parts as the upload's input |
| CrossFile.FilesAfterFields | InformateApp/app/admin/create.tsx:104-124 | text fields before the file contribute no upload parts |
| CrossFile.BearerRoundTrip | backend/controllers/eventController.js:12-17 | the server strips exactly the prefix the client adds: with a stored token the server verifies that token, without one the caller is anonymous |
| CrossFile.ClientTypeAccepted | backend/middleware/uploadMiddleware.js:7 | the type the app derives from a URI passes the server's filter iff the extension is `jpg`, `jpeg` or `png` |
| CrossFile.ClientTypeExamples | InformateApp/app/admin/create.tsx:116-122 | a `.png` path with dots elsewhere passes; an upper-case `.JPG` and a `.heic` photo are refused |
| CrossFile.CreateReceived | InformateApp/app/admin/create.tsx:101-129 | a saved create form arrives as `POST /` with the Bearer header, the defaulted body and at most the one banner file, passes the server's required-field check and reaches `createEvent` |
| CrossFile.CreateStored | backend/controllers/eventController.js:139-171 | a create from an authenticated user with an acceptable image or none answers 201 and stores the form under the next id, every optional field as the client's default text |
| CrossFile.CreateWrongTypeRefused | backend/middleware/uploadMiddleware.js:6-12 | a picked image of a type outside the whitelist is refused with 500 and the filter's message, and nothing is stored |
| CrossFile.EditTargetsReceived | InformateApp/app/admin/edit.tsx:150-172 | the screen's id reaches the update and delete routes as the same captured `:id` |
| CrossFile.DeleteReachesController | InformateApp/app/admin/edit.tsx:163-172 | a confirmed delete by an authenticated user runs `deleteEvent` on the screen's id |
| CrossFile.UpdateReachesController | backend/controllers/eventController.js:183-209 | an update from the edit screen runs `updateEvent` on the screen's id with the form's fields, and the banner is kept even when a new image was sent |
| CrossFile.LoadedForm | InformateApp/app/admin/edit.tsx:50-70 | the edit screen loads a stored event with its name, place and category as stored and its start back in stored form |
| CrossFile.SaveStoresBody | backend/controllers/eventController.js:198-209 | saving the edit screen overwrites the row with the form's fields and answers 200 |
| CrossFile.UnchangedEditKeepsEvent | InformateApp/app/admin/edit.tsx:50-150 | saving an unchanged edit screen keeps name, place, category, start, banner and creator |
| CrossFile.EditNullCategoryBecomesText | InformateApp/app/admin/edit.tsx:131 | an event without a category is saved back with the text `null` as its category |
| Text.ReplaceFirstChar | InformateApp/app/admin/edit.tsx:56 | `replace` with a string pattern changes only the first occurrence |
| Text.Take | InformateApp/app/admin/edit.tsx:56 | `slice(0, n)` is the prefix of length n, or the whole text when shorter |
| Text.AfterLastOfSuffix | InformateApp/app/admin/create.tsx:116-117 | the last part of `split('.')` is the text after the last dot |
| Text.ParseNatToString | backend/controllers/eventController.js:111 | the decimal text of an id parses back to that id |

## Left out

- Store failures: every `catch` that answers 500 (`Server Error`, `Gagal …`) is not modelled. The store is total.
- SQL engine details: collation, case-insensitive `LIKE`, and `%`/`_` wildcards inside the search text. Search is a plain substring test. Categories sort by code point.
- Column type coercion: the store keeps bound values as given. Text sent for a numeric column is not converted.
- Id coercion: an id written with leading zeros (`007`) selects row 7, as in MySQL. Text that MySQL would still read as a number, such as `7abc` or ` 7`, selects no row here.
- Filter values: `month` and `year` are read only as plain decimal digits, and `startDate` and `endDate` only as `YYYY-MM-DD`. MySQL also converts looser forms (`2025-1-5`, ` 3`, `3abc`); such a filter selects no row here.
- JWT verification: signing secret and expiry are an oracle `verify`.
- The strict authentication middleware is not part of this model. It is a gate that either passes a user id or answers the request.
- Multer internals, the multipart parser and the body of Express's default error handler: a refused upload is a 500 carrying the error's message. More than one file part ends at the first unexpected one.
- Express details: case-insensitive matching, URL decoding, `HEAD` requests, and the mount of this router in the server file, which is not part of this model. The router is taken to be mounted at `/api/events`.
- Error handling in the server file, which is not part of this model: no error handler of its own is assumed for the upload middleware's errors, so Express's default handler answers them with 500.
- CrossFile.Received: only requests without a query string are followed from the app to the router. The app's list and detail reads are not followed.
- Dates and times: the server's time zone (taken as UTC) and the date and time picker code in create.tsx and edit.tsx. `DATE`, `MONTH` and `YEAR` are functions on an abstract timestamp.
- `JSON.stringify` and `response.json()`: the serialisation, and a body that fails to parse, are not modelled.
- Number to text for negative values in `String(v)` follows JavaScript only for integers. Floating-point columns are not modelled.
- Concurrency: each request is one atomic step on the store.
- Bookmarks of a deleted event: the controller deletes only the event row. What the schema does with its bookmarks is outside the code shown and not modelled.
- `api.getUsers` (InformateApp/src/api.js:71-87) belongs to the user dashboard, not the event core.
- The reset screen's stubbed network call (InformateApp/app/auth/resetPassword.tsx:16-30) and the alert that follows it are left out. The model stops at the requested email.
- Navigation, alerts' buttons, loading flags and rendering on every screen.
