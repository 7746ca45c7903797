# SGPV library ordering app: a Dafny model

This project models the core of the SGPV-LIBRARY web application, in which
students order text books and administrators hand them out. It covers these
parts:

- **The user model** (`Backend/models/User.js`): the schema setters, enums and
  unique indexes, the password pre-save hook, `comparePassword`, and the
  order schema's `Order_Date` and `Status` defaults.
- **The two middlewares**: `protect` (JSON Web Token in the `token` cookie)
  and `adminOnly`.
- **The account routes** (`Backend/Routes/authRoutes.js`):
  - the multer upload filter and size limit;
  - `/signup`, with its per-field validation, duplicate pre-check,
    document construction and duplicate-key fallback;
  - `/login` with `generateTokenAndSetCookie`;
  - `/logout` and `/me`.
- **The signup page** (`Signup.jsx`): its form state, the change handlers,
  the submit-time validation and the handling of the reply.
- **The student pages**:
  - `BookList.jsx`: subject selection, then merging the sorted selection
    into the stored cart;
  - `Cart.jsx`: removal and checkout;
  - `My_Books.jsx`: name filter, then an in-place newest-first sort by
    order date.
- **The admin pages**:
  - `Order_History.jsx`: status filter, the six-character search trigger,
    and the requests each handler starts;
  - `GiveOrders.jsx`: approved orders only.

Modules, one per source file or shared concern:

| module | file | models |
|---|---|---|
| `Common` | common.dfy | `Option`; `Fetch` (an HTTP call that answered or threw) |
| `Text` | text.dfy | `trim`, `toLowerCase`, the validation regular expressions, `String(n)`, `padStart`, `split`, `Number`, code-point string order |
| `Lists` | lists.dfy | `Array.prototype.filter` and its laws |
| `Sorting` | sorting.dfy | `Array.prototype.sort` with a comparator: a stable sort, specified on sequences and carried out in place on an array |
| `Models` | models.dfy | `User.js` |
| `AuthMiddleware`, `AdminMiddleware` | auth_middleware.dfy, admin_middleware.dfy | the two gates |
| `SignupRules` | signup_rules.dfy | the upload filter and the field rules shared by server and form |
| `AuthRoutes` | auth_routes.dfy | the four routes |
| `SignupForm` | signup_form.dfy | the signup page (class `SignupPage`) |
| `Cart` | cart.dfy | the `cartItems` storage entry (class `CartStorage`) and the cart page (class `CartPage`) |
| `BookList` | book_list.dfy | the subject picker (class `BookListPage`) |
| `OrderSearch` | order_search.dfy | the admin views' search trigger |
| `OrderHistory` | order_history.dfy | the admin history page (class `OrderHistoryPage`) |
| `GiveOrders` | give_orders.dfy | the hand-out page (class `GiveOrdersPage`) |
| `MyBooks` | my_books.dfy | the student's order list (class `MyBooksPage`) |

How the model represents the system:

- **Pages.** React pages are classes. Each `useState` value is a field, and
  each handler is a method that states the complete new state.
- **Asynchronous calls.** On the signup, order-history and give-orders
  pages an asynchronous request and its completion are separate steps: the
  handler sets `loading` and returns the request it starts, and a
  `ReadReply`/`Complete` method applies the reply and clears `loading`. The
  my-books page fetches once on mount and offers nothing to act on while
  that fetch is in flight, so `FetchOrders` takes the reply in the same step.
- **Database.** The database is a sequence of user documents in natural
  order. `findOne` returns the first document that matches.
- **bcrypt.** bcrypt is an ideal salted one-way function: a digest records
  its input and its salt.
- **JSON Web Tokens.** A token records its payload, signing key, issue time
  and lifetime.
- **Parameters.** Clocks, salts, the JWT secret, the production flag and
  server replies are all parameters.

## Model

| member | source | states |
|---|---|---|
| Text.TrimSpec | Backend/Routes/authRoutes.js:131-133 | `trim` removes exactly the leading and trailing white space: the result is a contiguous piece of the input, everything cut on either side is white space, and the result neither starts nor ends with white space |
| Text.TrimSlice | Backend/Routes/authRoutes.js:131-133 | the trimmed string is the piece of the input that starts after the leading white space |
| Text.TrimCutsBlank | Backend/Routes/authRoutes.js:131-133 | everything `trim` cuts off, before and after the kept piece, is white space |
| Text.TrimEndsUnpadded | Backend/Routes/authRoutes.js:131-133 | a non-empty trimmed string neither starts nor ends with white space |
| Text.TrimEmptyIffBlank | Backend/Routes/authRoutes.js:78 | `s.trim() === ''` holds exactly when every character of `s` is white space |
| Text.TrimIdempotent | Backend/models/User.js:9 | trimming an already trimmed value changes nothing |
| Text.TrimOfUnpadded | Backend/Routes/authRoutes.js:156 | a string that neither starts nor ends with white space is its own trim |
| Text.TrimOfDigits | Backend/Routes/authRoutes.js:153-154 | a string of digits is its own trim |
| Text.NormaliseIdempotent | Backend/models/User.js:9-10 | trimming and lower-casing an already trimmed, lower-cased email changes nothing |
| Text.EmailNotBlank | Backend/Routes/authRoutes.js:81 | a string matching `\S+@\S+\.\S+` is not blank |
| Text.PadTwoRoundTrip | Backend/models/User.js:74-75 | `Number` of `String(n).padStart(2, '0')` is `n` |
| Text.DecimalNumberRoundTrip | Backend/models/User.js:76 | `Number(String(n))` is `n` |
| Text.DecimalRoundTrip | Backend/models/User.js:76 | the digits `String(n)` writes are read back as `n` |
| Text.SplitWithoutSeparator | Frontend/src/Components/Public/My_Books.jsx:27 | `split('-')` of a string without `-` gives that string alone |
| Text.SplitAfterField | Frontend/src/Components/Public/My_Books.jsx:27 | `split('-')` cuts at the first `-`, and the field before it comes first |
| Text.LexLeTotal | Frontend/src/Components/Public/BookList.jsx:56 | the code-point order of subject codes compares every pair |
| Text.LexLeTransitive | Frontend/src/Components/Public/BookList.jsx:56 | the code-point order of subject codes is transitive |
| Text.LexLeAntisymmetric | Frontend/src/Components/Public/BookList.jsx:56 | two codes that are each at most the other are equal |
| Lists.Filter | Frontend/src/Components/Public/Cart.jsx:15 | `filter` keeps exactly the elements that pass the test, and the result is no longer than the input |
| Lists.FilterConcat | Frontend/src/Components/Public/Cart.jsx:15 | filtering a concatenation filters each part in turn, so the kept elements stay in their original order |
| Lists.FilterCount | Frontend/src/Components/Admin/Order_History.jsx:29 | an element that passes keeps its multiplicity, and one that fails is gone |
| Lists.FilterIdempotent | Frontend/src/Components/Admin/Order_History.jsx:29 | filtering twice with the same test is filtering once |
| Lists.FilterAllPass | Frontend/src/Components/Public/BookList.jsx:59-61 | a filter that every element passes returns the input unchanged |
| Lists.DistinctPermutation | Frontend/src/Components/Public/BookList.jsx:54-56 | reordering a list without repeats gives a list without repeats |
| Lists.DistinctIffSingletons | Frontend/src/Components/Public/BookList.jsx:54-55 | a list has no repeats exactly when every element occurs once |
| Sorting.SortBy | Frontend/src/Components/Public/My_Books.jsx:26-32 | for a consistent comparator, the sorted list is a permutation of the input and every element may precede every later one |
| Sorting.InsertKeepsSorted | Frontend/src/Components/Public/My_Books.jsx:26-32 | inserting into a sorted list keeps it sorted |
| Sorting.InsertCount | Frontend/src/Components/Public/My_Books.jsx:26-32 | an insertion adds its element and keeps every other one |
| Sorting.InsertPos | Frontend/src/Components/Public/My_Books.jsx:26-32 | the inserted element passes every element it may not precede and stops in front of the first one it may precede, which keeps equal elements in their original order |
| Sorting.SortInPlace | Frontend/src/Components/Public/My_Books.jsx:26-32 | `array.sort(comparator)` leaves the array holding exactly `SortBy` of its former contents |
| Sorting.InsertAt | Frontend/src/Components/Public/My_Books.jsx:26-32 | one step of the in-place sort leaves the unsorted prefix alone and turns the suffix into the insertion of its first element into the sorted rest |
| Sorting.PlacedIsInserted | Frontend/src/Components/Public/My_Books.jsx:26-32 | the array after one scan step equals the insertion |
| Models.RoleName | Backend/models/User.js:46-50 | a stored role is one of `student`, `admin`, `librarian` |
| Models.RoleNamesDistinct | Backend/models/User.js:48 | distinct roles are stored under distinct names |
| Models.HashedPasswordMatchesOnlyItself | Backend/models/User.js:92-100 | a digest of a password matches exactly that password, and a plain stored value never matches |
| Models.NormaliseEmail | Backend/models/User.js:5-11 | the stored email is trimmed and lower case |
| Models.ApplySetters | Backend/models/User.js:5-45 | email is trimmed and lower-cased; name, pin, regulation and mobile number are trimmed; password, branch, file URL and role are untouched |
| Models.SettersIdempotent | Backend/models/User.js:5-33 | running the setters on a stored document changes nothing |
| Models.UserDocument.constructor | Backend/models/User.js:4-53 | a new document holds the fields after the setters, and its password counts as modified |
| Models.UserDocument.PreSave | Backend/models/User.js:88-95 | an unmodified password is left alone; a modified one is replaced by its bcrypt digest, and nothing else changes |
| Models.HashThenCompare | Backend/models/User.js:88-100 | after the hook has hashed a freshly set password, `comparePassword` accepts exactly that password |
| Models.FormatOrderDate | Backend/models/User.js:72-78 | `Order_Date` is two digits, `-`, two digits, `-`, the year's digits |
| Models.FormattedDateFields | Backend/models/User.js:77 | the stored date splits on `-` into the padded day, the padded 1-based month and the year |
| Models.SplitThreeFields | Backend/models/User.js:77 | three digit fields joined by `-` split back into themselves |
| Models.OrderDateRoundTrip | Backend/models/User.js:72-78 | reading the stored date back as `My_Books.jsx` does gives the day, the 1-based month and the year it was made from |
| Models.NewOrder | Backend/models/User.js:55-85 | a new order has status `pending` and today's date, and keeps its id, user name and subjects |
| Models.SchemaStatusValues | Backend/models/User.js:80-84 | the status enum admits exactly `pending`, `approved`, `rejected` |
| AuthMiddleware.Verify | Backend/middleware/authMiddleware.js:15 | `jwt.verify` yields a payload exactly for a token signed with the secret whose lifetime has not run out (an expired or foreign token is refused), and the payload is the signed one |
| AuthMiddleware.ProtectDecision | Backend/middleware/authMiddleware.js:4-27 | every refusal of `protect` is a 401 |
| AuthMiddleware.ProtectOutcomes | Backend/middleware/authMiddleware.js:4-27 | the request is passed on exactly when a token is present and verifies; "no token" exactly when the cookie is absent or empty; "token failed" exactly when it is present but does not verify |
| AuthMiddleware.Request.constructor | Backend/middleware/authMiddleware.js:6 | a request arrives with its cookie and no `req.user` |
| AuthMiddleware.Protect | Backend/middleware/authMiddleware.js:4-27 | the gate follows ProtectDecision; on success `req.user` is the decoded payload, and otherwise `req.user` is unchanged |
| AdminMiddleware.AdminOnly | Backend/middleware/adminMiddleware.js:1-6 | `next()` exactly when `req.user` exists and its role is exactly `Admin`; otherwise a 403 with the fixed message |
| AdminMiddleware.NoSchemaRolePassesAdminOnly | Backend/middleware/adminMiddleware.js:2 | no role the schema admits (all lower case) passes the case-sensitive `Admin` check |
| SignupRules.Multer | Backend/Routes/authRoutes.js:11-22 | no part gives no file; a file is accepted exactly when its type starts with `image/` and it is at most 5 MB; a non-image is refused with the filter's message |
| SignupRules.DataUrl | Backend/Routes/authRoutes.js:62 | the data URL always starts with `data:`, so the `!base64Image` check cannot fire |
| SignupRules.MissingIffTrimEmpty | Backend/Routes/authRoutes.js:78 | `!x \|\| x.trim() === ''` holds exactly when the field is absent or trims to empty |
| SignupRules.EmailRule | Backend/Routes/authRoutes.js:78-84 | the email passes exactly when it is present and matches `\S+@\S+\.\S+` |
| SignupRules.MobileRule | Backend/Routes/authRoutes.js:93-99 | the mobile number passes exactly when it is ten ASCII digits |
| SignupRules.PasswordRule | Backend/Routes/authRoutes.js:100-106 | the password passes exactly when it is not blank and its untrimmed length is at least six |
| SignupRules.RegulationRule | Backend/Routes/authRoutes.js:107-113 | the regulation number passes exactly when it is two ASCII digits |
| SignupRules.BranchRule | Backend/Routes/authRoutes.js:114-117 | the branch passes exactly when it is, as sent, one of CME, CIVIL, ECE, EEE, MECH |
| SignupRules.DigitsNotMissing | Backend/Routes/authRoutes.js:93-96 | a non-empty digit string never counts as missing |
| SignupRules.BranchUnpadded | Backend/Routes/authRoutes.js:114 | the five branch names are non-empty and unpadded |
| SignupRules.SignupFieldsValidMeaning | Backend/Routes/authRoutes.js:74-125 | a body passes validation exactly when every field meets its rule, field by field |
| SignupRules.RecordLookup | Backend/Routes/authRoutes.js:79-80 | recording a failed check adds that field's message and keeps every other entry |
| SignupRules.SignupErrorsMeaning | Backend/Routes/authRoutes.js:74-125 | every failing check leaves its own message under its own field and nothing else is recorded; the map is empty exactly when the body is valid |
| SignupRules.RecordError | Backend/Routes/authRoutes.js:78-84 | one check records its message if it failed, and `isValid` stays "no error recorded so far" |
| SignupRules.ValidateSignup | Backend/Routes/authRoutes.js:74-121 | all fields are checked, not only the first failing one; `newErrors` holds each failing field's message; `isValid` is true exactly when the body is valid |
| AuthRoutes.ConflictMessagesDistinct | Backend/Routes/authRoutes.js:137-147 | the three 409 messages name three different fields |
| AuthRoutes.FindAny | Backend/Routes/authRoutes.js:129-135 | the `$or` lookup finds a stored document sharing the email, pin or mobile, or reports that none does |
| AuthRoutes.PrecheckConflict | Backend/Routes/authRoutes.js:137-147 | for the document found, the email is named exactly when the lower-cased emails match (request email untrimmed); otherwise the pin exactly when the pin matches; otherwise the mobile number exactly when it matches; none exactly when no field matches |
| AuthRoutes.PrecheckSound | Backend/Routes/authRoutes.js:129-147 | in a valid store, the field the pre-check names is held by a stored document with the request's normalised value for that very field |
| AuthRoutes.SavedUserKeys | Backend/Routes/authRoutes.js:149-161 | the saved document's email, pin and mobile number are the request's normalised values |
| AuthRoutes.ConflictKeyIffConflicts | Backend/Routes/authRoutes.js:129-178 | a complete request gets a 409 (from the pre-check or from the duplicate-key error) exactly when some stored document shares one of its normalised unique values |
| AuthRoutes.ConflictSeenBySave | Backend/Routes/authRoutes.js:163-178 | a shared unique value makes the save fail with a duplicate-key error |
| AuthRoutes.NoConflictUnseen | Backend/Routes/authRoutes.js:129-178 | with no shared value, the pre-check's lookup finds nothing and the save violates no index |
| AuthRoutes.ConflictKeySound | Backend/Routes/authRoutes.js:137-178 | in a valid store, the field a 409 message names is one a stored document really holds with the request's value |
| AuthRoutes.PaddedEmailReportedAsPin | Backend/Routes/authRoutes.js:138-143 | a stored email sent back with a leading space is found by the lookup but reported as a pin conflict when the pin also matches |
| AuthRoutes.ViolatedIndex | Backend/Routes/authRoutes.js:166-178 | a duplicate-key error names an index whose value is already stored, and there is none exactly when no unique value is shared |
| AuthRoutes.SignupUserShape | Backend/Routes/authRoutes.js:149-161 | the saved document holds the normalised fields, the password's digest, role `student` and the next id, and is a fixed point of the setters |
| AuthRoutes.ViolationIffConflict | Backend/Routes/authRoutes.js:161-178 | the save hits a unique index exactly when the request conflicts with a stored document |
| AuthRoutes.SignedUpUserNonEmpty | Backend/Routes/authRoutes.js:149-159 | a valid request's document has every required field non-empty |
| AuthRoutes.AppendKeepsUnique | Backend/Routes/authRoutes.js:161 | appending a document that shares no unique value keeps the indexes unique |
| AuthRoutes.AppendKeepsStoreValid | Backend/Routes/authRoutes.js:161 | appending a schema-valid, hashed document with the next id and no shared value keeps the store valid |
| AuthRoutes.SignupKeepsStoreValid | Backend/Routes/authRoutes.js:149-164 | a document that signup admits keeps the collection valid |
| AuthRoutes.Signup | Backend/Routes/authRoutes.js:57-182 | no file gives 400; an upload error gives 500; an invalid body gives 400 with exactly the validation errors; a conflict gives 409 with the message of ConflictKey: the field the pre-check names for the document it found, else the index the save violates, email before pin before mobile; a request without conflict is never refused with 409; otherwise 201 with exactly one document appended; the store stays valid; no cookie is set |
| AuthRoutes.FindByEmail | Backend/Routes/authRoutes.js:193 | the document found has the email, or no document has it |
| AuthRoutes.UniqueEmailOwner | Backend/Routes/authRoutes.js:193 | under the unique index, at most one document holds an email |
| AuthRoutes.Authenticate | Backend/Routes/authRoutes.js:193-204 | success returns a stored user whose normalised email matches and whose digest accepts the password; failure means no stored user with that email accepts it |
| AuthRoutes.GenerateTokenAndSetCookie | Backend/Routes/authRoutes.js:25-53 | the reply sets an http-only, `Lax` cookie named `token`, secure only in production, lasting one hour; its token verifies to the user's claims for exactly one hour; the body holds the public user data |
| AuthRoutes.Login | Backend/Routes/authRoutes.js:185-213 | 400 exactly when email or password is missing; 401 always carries the generic message; a cookie is set exactly on 200; a database failure after the presence check gives 500 with the login error message; when the database answers, the reply follows Authenticate |
| AuthRoutes.LoginCookiePassesProtect | Backend/Routes/authRoutes.js:207 | the cookie of a successful login gets through `protect` for an hour and carries the claims of the stored user with that email |
| AuthRoutes.IssuedTokensNeverPassAdminOnly | Backend/Routes/authRoutes.js:28 | no token that login issues ever opens an `adminOnly` route |
| AuthRoutes.Logout | Backend/Routes/authRoutes.js:216-226 | logout overwrites `token` with an empty value that expires at time 0 |
| AuthRoutes.LogoutCookieFailsProtect | Backend/Routes/authRoutes.js:218-223 | the cleared cookie is refused by `protect` as "no token" |
| AuthRoutes.Me | Backend/Routes/authRoutes.js:229-245 | 200 with the token's profile exactly when `req.user` is set; otherwise 401 `Not authenticated` |
| AuthRoutes.MeRoute | Backend/Routes/authRoutes.js:229 | `protect` followed by `/me` returns the profile exactly when the token verifies; `/me`'s own 401 is never reached |
| AuthRoutes.AdminRoute | Backend/middleware/adminMiddleware.js:1-6 | `protect` followed by `adminOnly` refuses a missing or bad token with 401 and a valid token of another role with 403, and serves only an `Admin` token |
| SignupForm.WithValue | Frontend/src/Components/Common/Signup.jsx:55 | `{ ...prev, [name]: value }` replaces one input and keeps all the others |
| SignupForm.ClientErrorsMeaning | Frontend/src/Components/Common/Signup.jsx:109-164 | every failing client check leaves its own message under its own field and nothing else is recorded; the map is empty exactly when the form is valid |
| SignupForm.ValidateForm | Frontend/src/Components/Common/Signup.jsx:109-164 | every field is checked; `newErrors` holds each failing field's message; `isValid` is true exactly when the form is valid, and then a photo is present |
| SignupForm.SubmitBody | Frontend/src/Components/Common/Signup.jsx:179-187 | the posted body carries every text field as typed, except the confirmation |
| SignupForm.ClientMatchesBackend | Frontend/src/Components/Common/Signup.jsx:109-164 | with the branch chosen from the dropdown, the form is valid exactly when its body passes the server's validation, the confirmation matches and a photo is present |
| SignupForm.ClientBranchCheckLaxer | Frontend/src/Components/Common/Signup.jsx:157-160 | a branch outside the five passes the form but is refused by the server |
| SignupForm.MessageOr | Frontend/src/Components/Common/Signup.jsx:205 | `result.message \|\| fallback` shows the server's message when it is non-empty and the fallback otherwise |
| SignupForm.PhotoAcceptedIffUploaded | Frontend/src/Components/Common/Signup.jsx:71-86 | a photo the form keeps is exactly one the upload middleware accepts |
| SignupForm.SignupPage.constructor | Frontend/src/Components/Common/Signup.jsx:8-39 | the page starts with the empty form, no errors, no preview, no message and not loading |
| SignupForm.SignupPage.HandleChange | Frontend/src/Components/Common/Signup.jsx:42-58 | a regulation number of at most two digits is stored; a longer value is cut to its first two characters; any other value is ignored; every other input is stored as typed; an accepted change clears its error; the invariant holds |
| SignupForm.SignupPage.HandleBranchSelect | Frontend/src/Components/Common/Signup.jsx:61-65 | called only with one of the five names the dropdown lists; the branch is stored, its error cleared and the dropdown closed |
| SignupForm.SignupPage.HandlePhotoChange | Frontend/src/Components/Common/Signup.jsx:68-96 | size is checked before type; a refused file also drops the previous photo; the page keeps a photo exactly when the upload middleware would accept it, and the preview shows that photo |
| SignupForm.SignupPage.HandleSubmit | Frontend/src/Components/Common/Signup.jsx:106-199 | while a signup is in flight nothing happens (the disabled button); otherwise the form is sent exactly when it is valid; an invalid form shows its error map and the correction message; a sent form carries SubmitBody and the photo, passes the server's field validation and the upload filter, and leaves the page loading with no message and no errors |
| SignupForm.SignupPage.ReadReply | Frontend/src/Components/Common/Signup.jsx:202-243 | success resets the form, preview and errors and shows the server's message; a refusal keeps the form and shows the server's message and its errors, or the errors already shown when it sends none; no reply keeps the form and errors and shows the network message; loading ends in every case |
| Cart.RemoveCode | Frontend/src/Components/Public/Cart.jsx:15 | the remaining entries are exactly those whose code differs |
| Cart.RemoveKeepsOrder | Frontend/src/Components/Public/Cart.jsx:15 | removal keeps the order of the remaining entries |
| Cart.RemoveCount | Frontend/src/Components/Public/Cart.jsx:15 | every entry with the code is gone, and every other entry keeps its multiplicity |
| Cart.RemoveIdempotent | Frontend/src/Components/Public/Cart.jsx:15 | removing the same code twice is removing it once |
| Cart.RemoveAbsent | Frontend/src/Components/Public/Cart.jsx:15 | removing a code the cart does not hold changes nothing |
| Cart.CartStorage.constructor | Frontend/src/Components/Public/Cart.jsx:8 | the storage entry holds the stored list, or nothing |
| Cart.CartPage.constructor | Frontend/src/Components/Public/Cart.jsx:7-12 | the page shows the stored cart, or an empty one when the key is absent |
| Cart.CartPage.HandleRemove | Frontend/src/Components/Public/Cart.jsx:14-18 | the page shows RemoveCode of the old cart and stores exactly what it shows |
| Cart.CartPage.HandleCheckout | Frontend/src/Components/Public/Cart.jsx:20-26 | the cart is emptied, the storage key removed and the overlay shown |
| BookList.ShownBranch | Frontend/src/Components/Public/BookList.jsx:10 | the user's branch when it is non-empty, `CME` otherwise |
| BookList.Toggle | Frontend/src/Components/Public/BookList.jsx:38-48 | a code selected under a non-empty name is deleted, otherwise it is set to the name; other codes are untouched |
| BookList.ToggleTwice | Frontend/src/Components/Public/BookList.jsx:38-48 | toggling a subject twice restores the selection |
| BookList.CodeOrder | Frontend/src/Components/Public/BookList.jsx:56 | ordering by code is a consistent comparator |
| BookList.ListingHasDistinctCodes | Frontend/src/Components/Public/BookList.jsx:54-55 | the entries of the selection object never repeat a code |
| BookList.Entries | Frontend/src/Components/Public/BookList.jsx:54-55 | `Object.entries(...).map(...)` lists every selected `(code, name)` once and nothing else |
| BookList.NewItems | Frontend/src/Components/Public/BookList.jsx:54-56 | the new items are exactly the selected pairs, without repeated codes, in ascending code order |
| BookList.Unselected | Frontend/src/Components/Public/BookList.jsx:59-61 | the kept entries are the previous ones whose code is not newly selected |
| BookList.Merge | Frontend/src/Components/Public/BookList.jsx:58-63 | the merged cart holds the kept previous entries and the new items, and ends with exactly the new items |
| BookList.ConsDistinctCodes | Frontend/src/Components/Public/BookList.jsx:57-63 | a cart has distinct codes exactly when its tail does and the head's code is not in the tail |
| BookList.FilterKeepsDistinctCodes | Frontend/src/Components/Public/BookList.jsx:59-61 | filtering keeps codes distinct |
| BookList.MergeKeepsCodesDistinct | Frontend/src/Components/Public/BookList.jsx:57-63 | merging into a cart without repeated codes gives a cart without repeated codes that holds every new item |
| BookList.MergeNothing | Frontend/src/Components/Public/BookList.jsx:58-63 | merging no new items rewrites the cart unchanged |
| BookList.EmptySelectionAddsNothing | Frontend/src/Components/Public/BookList.jsx:147 | an empty selection lists no items, so an add with nothing selected would leave the cart as it was |
| BookList.BookListPage.constructor | Frontend/src/Components/Public/BookList.jsx:10-16 | the branch falls back to CME, the first semester is the branch's first listed one or `1ST-SEM`, and nothing is selected |
| BookList.BookListPage.HandleSemClick | Frontend/src/Components/Public/BookList.jsx:33-36 | only the semester changes; the selection persists |
| BookList.BookListPage.HandleSubjectToggle | Frontend/src/Components/Public/BookList.jsx:38-48 | the selection becomes Toggle of the old one |
| BookList.BookListPage.HandleAddToCart | Frontend/src/Components/Public/BookList.jsx:50-68 | the stored cart (an absent key counts as empty) becomes Merge of it with the sorted selection; the selection is cleared and the overlay shown |
| OrderSearch.SearchTrigger | Frontend/src/Components/Admin/Order_History.jsx:44-48 | a search starts exactly when the trimmed id has six characters, and it searches for the trimmed id; the full list is requested exactly when the id is blank; otherwise nothing happens |
| OrderSearch.SearchSeesTrimmedId | Frontend/src/Components/Admin/Order_History.jsx:46-47 | the trigger depends only on the trimmed id |
| OrderHistory.WithStatus | Frontend/src/Components/Admin/Order_History.jsx:20-22 | `all` keeps every order; any other status keeps exactly the orders with that status |
| OrderHistory.WithStatusCount | Frontend/src/Components/Admin/Order_History.jsx:28-30 | an admitted order keeps its multiplicity, and any other order is gone |
| OrderHistory.WithStatusIdempotent | Frontend/src/Components/Admin/Order_History.jsx:28-30 | filtering by the same status again changes nothing |
| OrderHistory.SearchResult | Frontend/src/Components/Admin/Order_History.jsx:19-23 | a search shows at most one order, and shows it exactly when it was found and passes the filter |
| OrderHistory.FilterQuery | Frontend/src/Components/Admin/Order_History.jsx:54-55 | a filter change searches the trimmed id when it has six characters, and lists everything otherwise |
| OrderHistory.FilterRepeatsSearch | Frontend/src/Components/Admin/Order_History.jsx:44-56 | a filter change repeats the search the box would start, and lists everything whenever the box would |
| OrderHistory.OrderHistoryPage.constructor | Frontend/src/Components/Admin/Order_History.jsx:5-41 | the page starts with no orders, loading, an empty search and filter `all`; the mount effect lists all orders |
| OrderHistory.OrderHistoryPage.HandleSearch | Frontend/src/Components/Admin/Order_History.jsx:44-48 | the id is remembered, and the request SearchTrigger names is started under the current filter |
| OrderHistory.OrderHistoryPage.HandleFilter | Frontend/src/Components/Admin/Order_History.jsx:39-56 | the filter is set and the menu closed; FilterQuery is requested, and when the filter actually changed the `[filter]` effect also requests the whole list |
| OrderHistory.OrderHistoryPage.Complete | Frontend/src/Components/Admin/Order_History.jsx:13-37 | a search reply shows SearchResult, a list reply shows the list under the status filter, a failure shows nothing, and loading ends |
| GiveOrders.ApprovedOnly | Frontend/src/Components/Admin/GiveOrders.jsx:19 | a search shows the found order exactly when it is approved, and never more than one order |
| GiveOrders.ApprovedOnlyIsHistoryFilter | Frontend/src/Components/Admin/GiveOrders.jsx:19 | a search here shows what the history page shows for the same order under the `approved` filter |
| GiveOrders.GiveOrdersPage.OnSearch | Frontend/src/Components/Admin/GiveOrders.jsx:55-59 | the id is remembered and the request SearchTrigger names is started |
| GiveOrders.GiveOrdersPage.Complete | Frontend/src/Components/Admin/GiveOrders.jsx:13-28 | a search reply shows only an approved order; a list reply shows the approved list as sent; a failure shows nothing; loading ends |
| MyBooks.NameFilter | Frontend/src/Components/Public/My_Books.jsx:21-23 | a missing or empty name keeps everything; otherwise exactly the orders of that user name are kept |
| MyBooks.NameFilterCount | Frontend/src/Components/Public/My_Books.jsx:21-23 | the user's orders keep their multiplicity, and other users' orders are gone |
| MyBooks.JsYear | Frontend/src/Components/Public/My_Books.jsx:29-30 | `new Date` reads years 0 to 99 as 1900 to 1999 and keeps later years |
| MyBooks.DateKey | Frontend/src/Components/Public/My_Books.jsx:27-30 | an order's date has a day exactly when it parses; the day and month are as written and the year is the written year as `new Date` reads it (JsYear), so at least 100 |
| MyBooks.NewerFirstOrder | Frontend/src/Components/Public/My_Books.jsx:26-32 | newest-first by (year, month, day) is a consistent comparator |
| MyBooks.NewOrdersSortByDay | Frontend/src/Components/Public/My_Books.jsx:26-32 | for orders created by the schema, one sorts first exactly when its creation day is not earlier |
| MyBooks.MyOrdersShape | Frontend/src/Components/Public/My_Books.jsx:21-34 | the list holds every order of the user as often as it was fetched, no other user's order, sorted newest first |
| MyBooks.MyBooksPage.FetchOrders | Frontend/src/Components/Public/My_Books.jsx:12-39 | a successful fetch shows the name-filtered orders sorted in place newest first, which is a permutation of the filtered list; a failed fetch shows nothing; loading ends |

## Left out

- The HTTP transport, Express routing, `res.json` serialisation, React rendering, navigation, timers and the overlays' two-second reset are not modelled. Every `loading` flag of the modelled pages is a field; on the signup page, the button it disables is modelled by `HandleSubmit` doing nothing while a signup is in flight.
- bcrypt is an ideal salted hash. The cost factor, `genSalt` and real digests are not modelled, and the salt is a parameter.
- JSON Web Tokens are an abstract signed record. Signature bytes and clock skew are not modelled, and the current time and the secret are parameters.
- MongoDB is a sequence of documents. `findOne` returns the first match in natural order, and a duplicate-key error names the first violated index in declaration order. Concurrent signups, `timestamps`, and database errors other than duplicate keys are not modelled; those errors are folded into a `dbDown` flag.
- `Backend/Server.js` registers no cookie parser. `req.cookies` is therefore undefined when the server runs as written. The model of `protect` reads the `token` cookie as if it were parsed.
- `Backend/Server.js` registers no error handler. A multer error from the file filter or the 5 MB limit therefore reaches Express's default handler, modelled as a 500 with the error's message.
- No file in this model mounts `adminOnly` on a route. AuthRoutes.AdminRoute composes the two gates in the order an admin route would.
- The order workflow endpoints (`/my_orders`, `/admin/orders/...`, the `give` action of `GiveOrders.jsx` and its message) are not part of this model. Their replies are parameters of the completion methods.
- `SignupForm.SignupPage.HandlePhotoChange` does not model resetting `e.target.value` or creating the preview's object URL. The preview is modelled as the kept file.
- `Signup.jsx` sends the form through `FormData`. The model passes the fields as optional strings and does not model multipart encoding. A field left empty arrives as the empty string, not as a missing field.
- Strings are sequences of Unicode scalar values. `slice(0, 2)` in `handleChange` and `.length` are counted in code points, not in UTF-16 code units. `toLowerCase` is modelled on ASCII letters only.
- `Text.LexLe`: `localeCompare` is modelled as code-point order. The subject codes of this app are digit strings (the numeric codes become object keys), on which the two agree. Locale collation in general is not modelled.
- `Text.ToNumber`: `Number` is modelled for white space around ASCII digits only. It does not model signs, decimals, exponents or hexadecimal forms; those count as invalid dates.
- `MyBooks.DateKey`: `new Date(y, m - 1, d)` rolls an out-of-range day or month over: past the end into the next month or year, and day 0 or month 0 back into the previous month or year, while the model compares the written (year, month, day) fields as they are. The two orders agree on real calendar dates. Years beyond the range of `Date` are not modelled.
- `MyBooks.NewerFirst`: a date that does not parse makes the JavaScript comparator return `NaN`, and the resulting order is then implementation-defined. The model places such orders after every order whose date parses.
- `My_Books.jsx` reads the user name from the `user` entry of `localStorage`, which the login page does not write. The model takes the name as a parameter.
- The subject catalogue (`Subjects.jsx`) is data. The book list receives its first listed semester as a parameter.
- Unused state (`showPassword`, the dropdown's open handler, `actionLoading`, `actionMessage`) is not modelled.
