/** `Backend/Routes/authRoutes.js`: the multer upload filter, `/signup`,
    `/login`, `/logout`, `/me`, and `generateTokenAndSetCookie`. The user
    collection is passed in and handed back; `findOne` returns the first
    matching document in natural order. */
module AuthRoutes {
  import opened Common
  import opened Text
  import opened Models
  import opened AuthMiddleware
  import opened AdminMiddleware
  import opened SignupRules

  // ---------------------------------------------------------------- responses

  /** The non-sensitive user data a login or `/me` reply carries. */
  datatype PublicUser = PublicUser(id: nat, name: string, email: string, pinNumber: string, branch: string, userRole: string)

  datatype Body =
    | Message(text: string)
    | ValidationFailed(errors: map<Field, string>)   // { message: 'Validation failed', errors }
    | LoginSuccess(user: PublicUser)                 // { message: 'Login Success !', user }
    | Profile(user: PublicUser)                      // { success: true, user }

  datatype CookieLifetime = MaxAge(milliseconds: nat) | ExpiresAt(epochMilliseconds: int)

  /** A `Set-Cookie` header as `res.cookie` writes it. */
  datatype SetCookie = SetCookie(name: string, value: CookieValue, httpOnly: bool, secure: bool, sameSite: string, lifetime: CookieLifetime)

  datatype Response = Response(status: nat, body: Body, cookie: Option<SetCookie>)

  function Reply(status: nat, message: string): Response
  {
    Response(status, Message(message), None)
  }

  const NoPhotoMessage := "No photo uploaded or invalid file type."
  const SignupServerError := "Server error during signup."
  const SignedUpMessage := "Signed up successfully!"

  /** The 409 message for a unique field, shared by the pre-check and the
      duplicate-key fallback. */
  function ConflictMessage(k: UniqueKey): string
  {
    match k
    case EmailKey => "Email already registered."
    case PinKey => "Pin Number already registered."
    case MobileKey => "Mobile Number already registered."
  }

  /** The three messages tell the fields apart. */
  lemma ConflictMessagesDistinct(k1: UniqueKey, k2: UniqueKey)
    ensures ConflictMessage(k1) == ConflictMessage(k2) <==> k1 == k2
  {
  }

  /** `User.findOne({ $or: [{ email }, { pinNumber }, { mobileNumber }] })`:
      the first document that matches any of the three. */
  function FindAny(users: seq<User>, email: string, pin: string, mobile: string): (r: Option<User>)
    ensures r.Some? ==> r.value in users
    ensures r.Some? ==> r.value.email == email || r.value.pinNumber == pin || r.value.mobileNumber == mobile
    ensures r.None? <==> forall u :: u in users ==> u.email != email && u.pinNumber != pin && u.mobileNumber != mobile
  {
    if users == [] then None
    else if users[0].email == email || users[0].pinNumber == pin || users[0].mobileNumber == mobile then Some(users[0])
    else FindAny(users[1..], email, pin, mobile)
  }

  /** The field the pre-check names for the document found: email first
      (both sides lower-cased, the request's email NOT trimmed), then pin,
      then mobile. */
  function PrecheckConflict(existing: User, b: SignupBody): (k: Option<UniqueKey>)
    requires b.email.Some? && b.pinNumber.Some? && b.mobileNumber.Some?
    ensures k == Some(EmailKey) <==> ToLower(existing.email) == ToLower(b.email.value)
    ensures k == Some(PinKey) <==> ToLower(existing.email) != ToLower(b.email.value)
                                   && existing.pinNumber == Trim(b.pinNumber.value)
    ensures k == Some(MobileKey) <==> ToLower(existing.email) != ToLower(b.email.value)
                                      && existing.pinNumber != Trim(b.pinNumber.value)
                                      && existing.mobileNumber == Trim(b.mobileNumber.value)
    ensures k == None <==> ToLower(existing.email) != ToLower(b.email.value)
                           && existing.pinNumber != Trim(b.pinNumber.value)
                           && existing.mobileNumber != Trim(b.mobileNumber.value)
  {
    if ToLower(existing.email) == ToLower(b.email.value) then Some(EmailKey)
    else if existing.pinNumber == Trim(b.pinNumber.value) then Some(PinKey)
    else if existing.mobileNumber == Trim(b.mobileNumber.value) then Some(MobileKey)
    else None
  }

  /** The whole pre-check: look the request up, then name the field. */
  function Precheck(users: seq<User>, b: SignupBody): Option<UniqueKey>
    requires b.email.Some? && b.pinNumber.Some? && b.mobileNumber.Some?
  {
    var found := FindAny(users, ToLower(Trim(b.email.value)), Trim(b.pinNumber.value), Trim(b.mobileNumber.value));
    if found.None? then None else PrecheckConflict(found.value, b)
  }

  /** Some stored document already holds one of the request's normalised
      unique values (false for a request that lacks one of them). */
  predicate Conflicts(users: seq<User>, b: SignupBody)
  {
    && b.email.Some? && b.pinNumber.Some? && b.mobileNumber.Some?
    && exists u :: u in users && SharesKey(u, b)
  }

  predicate SharesKey(u: User, b: SignupBody)
    requires b.email.Some? && b.pinNumber.Some? && b.mobileNumber.Some?
  {
    u.email == NormaliseEmail(b.email.value) || u.pinNumber == Trim(b.pinNumber.value)
    || u.mobileNumber == Trim(b.mobileNumber.value)
  }

  /** A stored email is its own normal form. */
  lemma StoredEmailNormal(users: seq<User>, i: nat)
    requires StoreValid(users) && i < |users|
    ensures Trim(users[i].email) == users[i].email && ToLower(users[i].email) == users[i].email
  {
    assert SchemaValid(users[i]);
    assert users[i].email == NormaliseEmail(users[i].email);
  }

  /** When the lower-cased request email equals a trimmed, lower-case stored
      email, the request email was not padded either. */
  lemma LowerUnpadded(e: string, s: string)
    requires ToLower(e) == s && Trim(s) == s
    ensures ToLower(Trim(e)) == s
  {
    if s != [] {
      assert !IsSpace(s[0]) && !IsSpace(s[|s| - 1]);
      assert s[0] == LowerChar(e[0]) && s[|s| - 1] == LowerChar(e[|e| - 1]);
      TrimOfUnpadded(e);
    } else {
      assert e == [];
    }
  }

  /** The request's value for a unique index, as the handler stores it. */
  function RequestKey(b: SignupBody, k: UniqueKey): string
    requires b.email.Some? && b.pinNumber.Some? && b.mobileNumber.Some?
  {
    match k
    case EmailKey => NormaliseEmail(b.email.value)
    case PinKey => Trim(b.pinNumber.value)
    case MobileKey => Trim(b.mobileNumber.value)
  }

  /** The field the pre-check names is held, with the request's normalised
      value, by a stored document, provided the stored documents are
      normalised. */
  lemma PrecheckSound(users: seq<User>, b: SignupBody)
    requires b.email.Some? && b.pinNumber.Some? && b.mobileNumber.Some?
    requires StoreValid(users) && Precheck(users, b).Some?
    ensures exists u :: u in users && KeyOf(u, Precheck(users, b).value) == RequestKey(b, Precheck(users, b).value)
    ensures Conflicts(users, b)
  {
    var e := b.email.value;
    var k := Precheck(users, b).value;
    var found := FindAny(users, ToLower(Trim(e)), Trim(b.pinNumber.value), Trim(b.mobileNumber.value)).value;
    var i :| 0 <= i < |users| && users[i] == found;
    if k == EmailKey {
      StoredEmailNormal(users, i);
      LowerUnpadded(e, found.email);
    }
    assert KeyOf(users[i], k) == RequestKey(b, k);
    assert SharesKey(users[i], b);
  }

  /** The unique index a save would violate, reported as MongoDB reports a
      duplicate key: one index, taken in declaration order. */
  function ViolatedIndex(users: seq<User>, u: User): (k: Option<UniqueKey>)
    ensures k.Some? ==> exists v :: v in users && KeyOf(v, k.value) == KeyOf(u, k.value)
    ensures k.None? <==> forall v :: v in users ==> v.email != u.email && v.pinNumber != u.pinNumber && v.mobileNumber != u.mobileNumber
  {
    if exists v :: v in users && v.email == u.email then Some(EmailKey)
    else if exists v :: v in users && v.pinNumber == u.pinNumber then Some(PinKey)
    else if exists v :: v in users && v.mobileNumber == u.mobileNumber then Some(MobileKey)
    else None
  }

  /** The document the handler builds, before Mongoose's setters and the
      pre-save hook: email trimmed and lower-cased, the others trimmed,
      the raw password, role `student`. */
  function SignupFields(b: SignupBody, file: FilePart, id: nat): User
    requires b.email.Some? && b.name.Some? && b.pinNumber.Some? && b.regulationNumber.Some?
    requires b.mobileNumber.Some? && b.password.Some? && b.branch.Some?
  {
    User(id, ToLower(Trim(b.email.value)), Trim(b.name.value), Trim(b.pinNumber.value),
         Trim(b.regulationNumber.value), Trim(b.mobileNumber.value), Plain(b.password.value),
         Trim(b.branch.value), DataUrl(file), Student)
  }

  /** The document signup stores for a valid request: normalised fields, the
      password's bcrypt digest, role `student`, the next `_id`. */
  predicate SignedUpUser(u: User, b: SignupBody, file: FilePart, id: nat, salt: nat)
  {
    && b.email.Some? && b.name.Some? && b.pinNumber.Some? && b.regulationNumber.Some?
    && b.mobileNumber.Some? && b.password.Some? && b.branch.Some?
    && u.email == NormaliseEmail(b.email.value) && u.name == Trim(b.name.value)
    && u.pinNumber == Trim(b.pinNumber.value) && u.mobileNumber == Trim(b.mobileNumber.value)
    && u.regulationNumber == Trim(b.regulationNumber.value) && u.branch == b.branch.value
    && u.password == BcryptHash(Plain(b.password.value), salt)
    && u.role == Student && u.id == id && u.fileUrl == DataUrl(file)
  }

  /** The document `user.save()` writes: the handler's fields after the
      setters, with the pre-save hook's digest of the password. */
  function SavedUser(b: SignupBody, file: FilePart, id: nat, salt: nat): User
    requires b.email.Some? && b.name.Some? && b.pinNumber.Some? && b.regulationNumber.Some?
    requires b.mobileNumber.Some? && b.password.Some? && b.branch.Some?
  {
    ApplySetters(SignupFields(b, file, id)).(password := BcryptHash(Plain(b.password.value), salt))
  }

  /** The saved document holds the request's normalised unique values. */
  lemma SavedUserKeys(b: SignupBody, file: FilePart, id: nat, salt: nat, k: UniqueKey)
    requires b.email.Some? && b.name.Some? && b.pinNumber.Some? && b.regulationNumber.Some?
    requires b.mobileNumber.Some? && b.password.Some? && b.branch.Some?
    ensures KeyOf(SavedUser(b, file, id, salt), k) == RequestKey(b, k)
  {
    var e := NormaliseEmail(b.email.value);
    assert NormaliseEmail(e) == e;
    TrimIdempotent(b.pinNumber.value);
    TrimIdempotent(b.mobileNumber.value);
  }

  /** The field a 409 from signup names: the pre-check's, else the index
      the save violates (none for a request that lacks a field). */
  function ConflictKey(users: seq<User>, b: SignupBody, file: FilePart, salt: nat): Option<UniqueKey>
  {
    if !(b.email.Some? && b.name.Some? && b.pinNumber.Some? && b.regulationNumber.Some?
         && b.mobileNumber.Some? && b.password.Some? && b.branch.Some?) then None
    else if Precheck(users, b).Some? then Precheck(users, b)
    else ViolatedIndex(users, SavedUser(b, file, |users|, salt))
  }

  /** A complete request gets a 409 exactly when it conflicts. */
  lemma ConflictKeyIffConflicts(users: seq<User>, b: SignupBody, file: FilePart, salt: nat)
    requires b.email.Some? && b.name.Some? && b.pinNumber.Some? && b.regulationNumber.Some?
    requires b.mobileNumber.Some? && b.password.Some? && b.branch.Some?
    ensures ConflictKey(users, b, file, salt).Some? <==> Conflicts(users, b)
  {
    var u := SavedUser(b, file, |users|, salt);
    SavedUserKeys(b, file, |users|, salt, EmailKey);
    SavedUserKeys(b, file, |users|, salt, PinKey);
    SavedUserKeys(b, file, |users|, salt, MobileKey);
    if Conflicts(users, b) {
      ConflictSeenBySave(users, b, u);
    } else {
      NoConflictUnseen(users, b, u);
    }
  }

  /** A shared value is seen by the pre-check's lookup or by the save. */
  lemma ConflictSeenBySave(users: seq<User>, b: SignupBody, u: User)
    requires Conflicts(users, b)
    requires u.email == NormaliseEmail(b.email.value) && u.pinNumber == Trim(b.pinNumber.value)
    requires u.mobileNumber == Trim(b.mobileNumber.value)
    ensures ViolatedIndex(users, u).Some?
  {
    var v :| v in users && SharesKey(v, b);
    assert v.email == u.email || v.pinNumber == u.pinNumber || v.mobileNumber == u.mobileNumber;
  }

  /** Nothing shared: neither the pre-check's lookup nor the save finds a
      collision. */
  lemma NoConflictUnseen(users: seq<User>, b: SignupBody, u: User)
    requires b.email.Some? && b.pinNumber.Some? && b.mobileNumber.Some? && !Conflicts(users, b)
    requires u.email == NormaliseEmail(b.email.value) && u.pinNumber == Trim(b.pinNumber.value)
    requires u.mobileNumber == Trim(b.mobileNumber.value)
    ensures Precheck(users, b).None? && ViolatedIndex(users, u).None?
  {
    forall v | v in users ensures v.email != u.email && v.pinNumber != u.pinNumber && v.mobileNumber != u.mobileNumber {
      assert !SharesKey(v, b);
    }
  }

  /** In a valid collection, the field a 409 names is one a stored document
      really holds with the request's value; the pre-check's email-first
      order decides when several are shared. */
  lemma ConflictKeySound(users: seq<User>, b: SignupBody, file: FilePart, salt: nat)
    requires StoreValid(users) && ConflictKey(users, b, file, salt).Some?
    ensures var k := ConflictKey(users, b, file, salt).value;
      exists u :: u in users && KeyOf(u, k) == RequestKey(b, k)
  {
    var k := ConflictKey(users, b, file, salt).value;
    if Precheck(users, b).Some? {
      PrecheckSound(users, b);
    } else {
      var u := SavedUser(b, file, |users|, salt);
      SavedUserKeys(b, file, |users|, salt, k);
      var v :| v in users && KeyOf(v, k) == KeyOf(u, k);
      assert KeyOf(v, k) == RequestKey(b, k);
    }
  }

  /** What the setters and the hook make of the handler's document. */
  lemma SignupUserShape(b: SignupBody, file: FilePart, id: nat, salt: nat, u: User)
    requires b.email.Some? && b.name.Some? && b.pinNumber.Some? && b.regulationNumber.Some?
    requires b.mobileNumber.Some? && b.password.Some? && b.branch.Some?
    requires b.branch.value in Branches
    requires u == SavedUser(b, file, id, salt)
    ensures SignedUpUser(u, b, file, id, salt)
    ensures ApplySetters(u) == u
  {
    var f := SignupFields(b, file, id);
    var e := NormaliseEmail(b.email.value);
    assert NormaliseEmail(e) == e;
    TrimIdempotent(b.name.value);
    TrimIdempotent(b.pinNumber.value);
    TrimIdempotent(b.regulationNumber.value);
    TrimIdempotent(b.mobileNumber.value);
    BranchUnpadded(b.branch.value);
    TrimOfUnpadded(b.branch.value);
    SettersIdempotent(f);
  }

  /** The new document collides with a stored one exactly when the request
      conflicts. */
  lemma ViolationIffConflict(users: seq<User>, u: User, b: SignupBody, file: FilePart, id: nat, salt: nat)
    requires SignedUpUser(u, b, file, id, salt)
    ensures ViolatedIndex(users, u).Some? <==> Conflicts(users, b)
  {
    if ViolatedIndex(users, u).None? {
      forall v | v in users ensures !SharesKey(v, b) {
      }
    } else {
      var v :| v in users && (v.email == u.email || v.pinNumber == u.pinNumber || v.mobileNumber == u.mobileNumber);
      assert SharesKey(v, b);
    }
  }

  /** A document admitted by signup keeps the collection valid. */
  lemma SignupKeepsStoreValid(users: seq<User>, u: User, b: SignupBody, file: FilePart, salt: nat)
    requires StoreValid(users)
    requires SignupFieldsValid(b)
    requires SignedUpUser(u, b, file, |users|, salt) && ApplySetters(u) == u
    requires ViolatedIndex(users, u).None?
    ensures StoreValid(users + [u])
  {
    SignedUpUserNonEmpty(u, b, file, |users|, salt);
    AppendKeepsStoreValid(users, u);
  }

  /** Appending a schema-valid, hashed document with the next `_id` and no
      shared unique value keeps the collection valid. */
  lemma AppendKeepsStoreValid(users: seq<User>, u: User)
    requires StoreValid(users)
    requires SchemaValid(u) && u.password.BcryptHash? && u.id == |users|
    requires forall v :: v in users ==> v.email != u.email && v.pinNumber != u.pinNumber && v.mobileNumber != u.mobileNumber
    ensures StoreValid(users + [u])
  {
    AppendKeepsUnique(users, u);
    var all := users + [u];
    forall i | 0 <= i < |all| ensures SchemaValid(all[i]) && all[i].password.BcryptHash? && all[i].id == i {
      if i < |users| { assert all[i] == users[i]; }
    }
  }

  /** Appending a document that shares no unique value keeps the indexes. */
  lemma AppendKeepsUnique(users: seq<User>, u: User)
    requires UniqueIndexes(users)
    requires forall v :: v in users ==> v.email != u.email && v.pinNumber != u.pinNumber && v.mobileNumber != u.mobileNumber
    ensures UniqueIndexes(users + [u])
  {
    var all := users + [u];
    forall i, j, k | 0 <= i < j < |all| ensures KeyOf(all[i], k) != KeyOf(all[j], k) {
      if j == |users| {
        assert all[i] in users && all[j] == u;
      } else {
        assert all[i] == users[i] && all[j] == users[j];
      }
    }
  }

  /** The stored document of a valid request has every required field. */
  lemma SignedUpUserNonEmpty(u: User, b: SignupBody, file: FilePart, id: nat, salt: nat)
    requires SignupFieldsValid(b) && SignedUpUser(u, b, file, id, salt)
    ensures u.email != [] && u.name != [] && u.pinNumber != [] && u.regulationNumber != []
    ensures u.mobileNumber != [] && u.branch != [] && u.fileUrl != []
  {
    SignupFieldsValidMeaning(b);
    TrimEmptyIffBlank(b.name.value);
    TrimEmptyIffBlank(b.pinNumber.value);
    EmailNotBlank(b.email.value);
    TrimEmptyIffBlank(b.email.value);
    BranchUnpadded(b.branch.value);
    TrimOfDigits(b.regulationNumber.value);
    TrimOfDigits(b.mobileNumber.value);
  }

  /** `POST /signup` after the upload middleware. Returns the reply and the
      collection afterwards; the salt is a parameter, and `dbDown` stands for
      a database call that throws something other than a duplicate key. */
  method Signup(upload: Upload, b: SignupBody, users: seq<User>, salt: nat, dbDown: bool)
    returns (resp: Response, users': seq<User>)
    ensures resp.cookie == None
    ensures users' == users || (resp == Reply(201, SignedUpMessage) && |users'| == |users| + 1 && users'[..|users|] == users)
    ensures upload.NoFile? ==> resp == Reply(400, NoPhotoMessage)
    ensures upload.UploadError? ==> resp == Reply(500, upload.message)
    ensures upload.Accepted? && !SignupFieldsValid(b) ==> resp == Response(400, ValidationFailed(SignupErrors(b)), None)
    ensures upload.Accepted? && SignupFieldsValid(b) && dbDown ==> resp == Reply(500, SignupServerError)
    ensures upload.Accepted? && SignupFieldsValid(b) && !dbDown ==>
      && (ConflictKey(users, b, upload.file, salt).Some? ==>
            resp == Reply(409, ConflictMessage(ConflictKey(users, b, upload.file, salt).value)))
      && (Conflicts(users, b) ==> resp.status == 409)
      && (!Conflicts(users, b) ==> resp == Reply(201, SignedUpMessage))
    ensures resp.status == 409 && StoreValid(users) ==> Conflicts(users, b)
    ensures resp.status == 201 ==>
      |users'| == |users| + 1 && upload.Accepted? && SignedUpUser(users'[|users|], b, upload.file, |users|, salt)
    ensures StoreValid(users) ==> StoreValid(users')
  {
    users' := users;
    if upload.NoFile? {
      return Reply(400, NoPhotoMessage), users';
    }
    if upload.UploadError? {
      // multer called next(err): Express's default error handler answers.
      return Reply(500, upload.message), users';
    }
    var errors, isValid := ValidateSignup(b);
    if !isValid {
      return Response(400, ValidationFailed(errors), None), users';
    }
    SignupFieldsValidMeaning(b);
    if dbDown {
      return Reply(500, SignupServerError), users';
    }
    var k := Precheck(users, b);
    if k.Some? {
      if StoreValid(users) {
        PrecheckSound(users, b);
      }
      resp := Reply(409, ConflictMessage(k.value));
      return;
    }
    var doc := new UserDocument(SignupFields(b, upload.file, |users|));
    doc.PreSave(salt);
    var u := doc.user;
    assert u == SavedUser(b, upload.file, |users|, salt);
    SignupUserShape(b, upload.file, |users|, salt, u);
    ViolationIffConflict(users, u, b, upload.file, |users|, salt);
    var violated := ViolatedIndex(users, u);
    if violated.Some? {
      // The save threw a duplicate-key error (code 11000).
      return Reply(409, ConflictMessage(violated.value)), users';
    }
    users' := users + [u];
    resp := Reply(201, SignedUpMessage);
    assert users'[|users|] == u && users'[..|users|] == users;
    if StoreValid(users) {
      SignupKeepsStoreValid(users, u, b, upload.file, salt);
    }
  }

  /** The email pre-check compares the request email untrimmed. A request
      whose email is a stored one with a leading space, and whose pin is also
      taken by that document, is reported as a pin conflict: the email-first
      precedence holds only for unpadded emails. */
  lemma PaddedEmailReportedAsPin(existing: User, b: SignupBody)
    requires b.email.Some? && b.pinNumber.Some? && b.mobileNumber.Some?
    requires existing.email != [] && Trim(existing.email) == existing.email && ToLower(existing.email) == existing.email
    requires b.email.value == [' '] + existing.email
    requires existing.pinNumber == Trim(b.pinNumber.value)
    ensures existing.email == NormaliseEmail(b.email.value)
    ensures PrecheckConflict(existing, b) == Some(PinKey)
  {
    var s := existing.email;
    var e := b.email.value;
    assert e[1..] == s;
    assert TrimStart(e) == TrimStart(s);
    assert !IsSpace(s[0]) && !IsSpace(s[|s| - 1]);
    assert TrimStart(s) == s;
    assert |ToLower(e)| != |ToLower(s)|;
  }

  // ---------------------------------------------------------------- login

  datatype LoginBody = LoginBody(email: Option<string>, password: Option<string>)

  const InvalidCredentials := "Invalid credentials."
  const CredentialsRequired := "Email and password are required."
  const LoginServerError := "Server error during login."
  const TokenLifetimeSeconds: nat := 3600
  const CookieMaxAge: nat := 3600000

  /** `User.findOne({ email })`. */
  function FindByEmail(users: seq<User>, email: string): (r: Option<User>)
    ensures r.Some? ==> r.value in users && r.value.email == email
    ensures r.None? <==> forall u :: u in users ==> u.email != email
  {
    if users == [] then None
    else if users[0].email == email then Some(users[0])
    else FindByEmail(users[1..], email)
  }

  /** Under the unique index, one document at most holds a given email. */
  lemma UniqueEmailOwner(users: seq<User>, w: User)
    requires w in users
    ensures UniqueIndexes(users) ==> forall u :: u in users && u.email == w.email ==> u == w
  {
    if UniqueIndexes(users) {
      forall i, j | 0 <= i < j < |users| ensures users[i].email != users[j].email {
        assert KeyOf(users[i], EmailKey) != KeyOf(users[j], EmailKey);
      }
    }
  }

  /** The credential check of `/login`: the document with the normalised
      email, if its digest matches the password. */
  function Authenticate(users: seq<User>, email: string, password: string): (r: Option<User>)
    ensures r.Some? ==> r.value in users && r.value.email == NormaliseEmail(email)
                        && BcryptCompare(password, r.value.password)
    ensures r.None? && UniqueIndexes(users) ==>
      forall u :: u in users && u.email == NormaliseEmail(email) ==> !BcryptCompare(password, u.password)
  {
    var found := FindByEmail(users, ToLower(Trim(email)));
    if found.None? then None
    else if !BcryptCompare(password, found.value.password) then
      UniqueEmailOwner(users, found.value);
      None
    else found
  }

  /** The token payload: id, email, name, pin, branch and role. */
  function ClaimsOf(u: User): Claims
  {
    Claims(u.id, u.email, u.name, u.pinNumber, u.branch, RoleName(u.role))
  }

  /** `generateTokenAndSetCookie(user, statusCode, res)`: a one-hour token
      in an http-only, `Lax` cookie named `token`, marked secure in
      production, and the public part of the user in the body. */
  function GenerateTokenAndSetCookie(u: User, statusCode: nat, secret: string, now: int, production: bool): (resp: Response)
    ensures resp.status == statusCode && resp.cookie.Some?
    ensures var c := resp.cookie.value;
      && c.name == "token" && c.httpOnly && c.secure == production && c.sameSite == "Lax"
      && c.lifetime == MaxAge(TokenLifetimeSeconds * 1000)
    ensures forall t :: now <= t < now + TokenLifetimeSeconds ==> Verify(resp.cookie.value.value, secret, t) == Some(ClaimsOf(u))
    ensures forall t :: t >= now + TokenLifetimeSeconds ==> Verify(resp.cookie.value.value, secret, t) == None
    ensures resp.body == LoginSuccess(PublicUser(u.id, u.name, u.email, u.pinNumber, u.branch, RoleName(u.role)))
  {
    var token := Token(ClaimsOf(u), secret, now, TokenLifetimeSeconds);
    Response(statusCode,
             LoginSuccess(PublicUser(u.id, u.name, u.email, u.pinNumber, u.branch, RoleName(u.role))),
             Some(SetCookie("token", Signed(token), true, production, "Lax", MaxAge(CookieMaxAge))))
  }

  /** `POST /login`. */
  function Login(b: LoginBody, users: seq<User>, secret: string, now: int, production: bool, dbDown: bool): (resp: Response)
    ensures resp.status == 400 <==> Missing(b.email) || Missing(b.password)
    ensures resp.status == 401 ==> resp == Reply(401, InvalidCredentials)
    ensures resp.cookie.Some? <==> resp.status == 200
    ensures !Missing(b.email) && !Missing(b.password) && dbDown ==> resp == Reply(500, LoginServerError)
    ensures !Missing(b.email) && !Missing(b.password) && !dbDown ==>
      var r := Authenticate(users, b.email.value, b.password.value);
      && (r.None? ==> resp == Reply(401, InvalidCredentials))
      && (r.Some? ==> resp == GenerateTokenAndSetCookie(r.value, 200, secret, now, production))
  {
    if Missing(b.email) || Missing(b.password) then Reply(400, CredentialsRequired)
    else if dbDown then Reply(500, LoginServerError)
    else
      var r := Authenticate(users, b.email.value, b.password.value);
      if r.None? then Reply(401, InvalidCredentials)
      else GenerateTokenAndSetCookie(r.value, 200, secret, now, production)
  }

  /** The cookie a successful login sets gets through `protect` for an hour,
      and `req.user` then describes the stored user with that email. */
  lemma LoginCookiePassesProtect(b: LoginBody, users: seq<User>, secret: string, now: int, production: bool, t: int)
    requires Login(b, users, secret, now, production, false).status == 200
    requires now <= t < now + TokenLifetimeSeconds
    ensures var cookie := Login(b, users, secret, now, production, false).cookie.value;
      var u := Authenticate(users, b.email.value, b.password.value);
      && u.Some? && u.value in users && u.value.email == NormaliseEmail(b.email.value)
      && ProtectDecision(Some(cookie.value), secret, t) == Next
      && Verify(cookie.value, secret, t) == Some(ClaimsOf(u.value))
  {
  }

  /** With every stored role drawn from the schema's enum, no token that
      login issues opens an `adminOnly` route. */
  lemma IssuedTokensNeverPassAdminOnly(b: LoginBody, users: seq<User>, secret: string, now: int, production: bool, t: int)
    requires Login(b, users, secret, now, production, false).status == 200
    ensures var cookie := Login(b, users, secret, now, production, false).cookie.value;
      AdminOnly(Verify(cookie.value, secret, t)) == Deny(403, AdminOnlyMessage)
  {
    var u := Authenticate(users, b.email.value, b.password.value).value;
    var decoded := Verify(Login(b, users, secret, now, production, false).cookie.value.value, secret, t);
    if decoded.Some? {
      NoSchemaRolePassesAdminOnly(decoded.value, u.role);
    }
  }

  // ---------------------------------------------------------------- logout and /me

  /** `POST /logout`: overwrite the cookie with an empty, already expired one. */
  function Logout(production: bool): (resp: Response)
    ensures resp.status == 200 && resp.cookie.Some?
    ensures NoToken(Some(resp.cookie.value.value))
    ensures resp.cookie.value.name == "token" && resp.cookie.value.lifetime == ExpiresAt(0)
  {
    Response(200, Message("Logged out successfully."),
             Some(SetCookie("token", Text(""), true, production, "Lax", ExpiresAt(0))))
  }

  /** After logout, a browser that still sends the cleared cookie is told
      there is no token. */
  lemma LogoutCookieFailsProtect(production: bool, secret: string, now: int)
    ensures ProtectDecision(Some(Logout(production).cookie.value.value), secret, now) == Deny(401, NoTokenMessage)
  {
  }

  /** The `/me` handler. */
  function Me(user: Option<Claims>): (resp: Response)
    ensures resp.status == 200 <==> user.Some?
    ensures user.Some? ==> resp.body == Profile(PublicUser(user.value.id, user.value.name, user.value.email,
                                                           user.value.pinNumber, user.value.branch, user.value.userRole))
    ensures user.None? ==> resp == Reply(401, "Not authenticated")
  {
    if user.Some? then
      Response(200, Profile(PublicUser(user.value.id, user.value.name, user.value.email,
                                       user.value.pinNumber, user.value.branch, user.value.userRole)), None)
    else Reply(401, "Not authenticated")
  }

  /** `GET /me` with `protect` in front: the profile in the token comes back
      exactly when the token verifies; `/me`'s own 401 is never reached. */
  method MeRoute(req: Request, secret: string, now: int) returns (resp: Response)
    modifies req`user
    ensures var decoded := if req.tokenCookie.Some? then Verify(req.tokenCookie.value, secret, now) else None;
      && (resp.status == 200 <==> decoded.Some?)
      && (decoded.Some? ==> resp == Me(decoded))
      && (decoded.None? ==> resp.status == 401 && resp != Reply(401, "Not authenticated"))
  {
    var gate := Protect(req, secret, now);
    if gate.Next? {
      resp := Me(req.user);
    } else {
      resp := Reply(gate.status, gate.message);
    }
  }

  /** An admin route: `protect`, then `adminOnly`. A request without a valid
      token is refused with 401, one with a valid token but another role with
      403, and nothing is served unless both pass. */
  method AdminRoute(req: Request, secret: string, now: int) returns (g: Gate)
    modifies req`user
    ensures var decoded := if req.tokenCookie.Some? then Verify(req.tokenCookie.value, secret, now) else None;
      && (decoded.None? ==> g.Deny? && g.status == 401)
      && (decoded.Some? ==> g == AdminOnly(decoded))
      && (g == Next <==> decoded.Some? && decoded.value.userRole == "Admin")
  {
    g := Protect(req, secret, now);
    if g.Next? {
      g := AdminOnly(req.user);
    }
  }
}
