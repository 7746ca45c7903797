/** The request checks of `Backend/Routes/authRoutes.js` that the signup
    form in `Signup.jsx` mirrors: the multer upload filter and limit, and the
    per-field validation of `/signup` with its messages. */
module SignupRules {
  import opened Common
  import opened Text

  /** The form fields that per-field error maps are keyed by. */
  datatype Field = Email | Name | PinNumber | RegulationNumber | MobileNumber | Password | ConfirmPassword | Branch | Photo | FileUrl

  // ---------------------------------------------------------------- upload

  /** The file part of the multipart request: its declared type, its size in
      bytes, and its content already in base64. */
  datatype FilePart = FilePart(mimetype: string, size: nat, base64: string)

  const MaxPhotoBytes: nat := 5 * 1024 * 1024

  /** `fileFilter`: only `image/` types are let through. */
  predicate FileFilter(mimetype: string)
  {
    StartsWith(mimetype, "image/")
  }

  /** What `upload.single('photo')` hands on: no file, an accepted file, or
      an error passed to `next(err)` (the filter's rejection, or the 5 MB
      limit). The filter runs when the part starts, before the size is known. */
  datatype Upload = NoFile | Accepted(file: FilePart) | UploadError(message: string)

  function Multer(part: Option<FilePart>): (u: Upload)
    ensures u.NoFile? <==> part.None?
    ensures u.Accepted? <==> part.Some? && FileFilter(part.value.mimetype) && part.value.size <= MaxPhotoBytes
    ensures u.Accepted? ==> u.file == part.value
    ensures part.Some? && !FileFilter(part.value.mimetype) ==> u == UploadError("Only image files are allowed!")
  {
    if part.None? then NoFile
    else if !FileFilter(part.value.mimetype) then UploadError("Only image files are allowed!")
    else if part.value.size > MaxPhotoBytes then UploadError("File too large")
    else Accepted(part.value)
  }

  /** `data:<mimetype>;base64,<content>`, never empty: the route's
      `if (!base64Image)` check cannot fire. */
  function DataUrl(f: FilePart): (url: string)
    ensures StartsWith(url, "data:")
  {
    "data:" + f.mimetype + ";base64," + f.base64
  }

  // ---------------------------------------------------------------- field rules

  /** `!x || x.trim() === ''`: absent, or white space only (see
      MissingIffTrimEmpty). */
  predicate Missing(x: Option<string>)
  {
    x.None? || IsBlank(x.value)
  }

  lemma MissingIffTrimEmpty(s: string)
    ensures Missing(Some(s)) <==> Trim(s) == []
  {
    TrimEmptyIffBlank(s);
  }

  const Branches: seq<string> := ["CME", "CIVIL", "ECE", "EEE", "MECH"]

  function EmailError(x: Option<string>): Option<string>
  {
    if Missing(x) then Some("Email is required")
    else if !LooksLikeEmail(x.value) then Some("Email is invalid")
    else None
  }

  function NameError(x: Option<string>): Option<string>
  {
    if Missing(x) then Some("Name is required") else None
  }

  function PinError(x: Option<string>): Option<string>
  {
    if Missing(x) then Some("Pin number is required") else None
  }

  function MobileError(x: Option<string>): Option<string>
  {
    if Missing(x) then Some("Mobile number is required")
    else if !ExactDigits(x.value, 10) then Some("Mobile number must be 10 digits")
    else None
  }

  function PasswordError(x: Option<string>): Option<string>
  {
    if Missing(x) then Some("Password is required")
    else if |x.value| < 6 then Some("Password must be at least 6 characters")
    else None
  }

  function RegulationError(x: Option<string>): Option<string>
  {
    if Missing(x) then Some("Regulation number is required")
    else if !ExactDigits(x.value, 2) then Some("Regulation number must be 2 digits")
    else None
  }

  /** The backend's branch rule: present, not blank, and one of the five. */
  function BranchError(x: Option<string>): Option<string>
  {
    if Missing(x) || x.value !in Branches then Some("Please select a valid branch") else None
  }

  /** A string of digits is never blank. */
  lemma DigitsNotMissing(s: string)
    requires s != [] && AllDigits(s)
    ensures !Missing(Some(s))
  {
    TrimOfDigits(s);
  }

  /** The mobile number passes exactly when it is ten ASCII digits. */
  lemma MobileRule(x: Option<string>)
    ensures MobileError(x) == None <==> x.Some? && ExactDigits(x.value, 10)
  {
    if x.Some? && ExactDigits(x.value, 10) {
      DigitsNotMissing(x.value);
    }
  }

  /** The regulation number passes exactly when it is two ASCII digits. */
  lemma RegulationRule(x: Option<string>)
    ensures RegulationError(x) == None <==> x.Some? && ExactDigits(x.value, 2)
  {
    if x.Some? && ExactDigits(x.value, 2) {
      DigitsNotMissing(x.value);
    }
  }

  /** The password fails when it is only white space, or when its untrimmed
      length is below six. */
  lemma PasswordRule(x: Option<string>)
    ensures PasswordError(x) == None <==> x.Some? && !IsBlank(x.value) && |x.value| >= 6
  {
    if x.Some? {
      TrimEmptyIffBlank(x.value);
    }
  }

  /** The email passes exactly when it matches `\S+@\S+\.\S+`; a match is
      never blank. */
  lemma EmailRule(x: Option<string>)
    ensures EmailError(x) == None <==> x.Some? && LooksLikeEmail(x.value)
  {
    if x.Some? && LooksLikeEmail(x.value) {
      EmailNotBlank(x.value);
      NotBlankNotMissing(x.value);
    }
  }

  /** The branch passes exactly when it is one of CME, CIVIL, ECE, EEE, MECH
      (compared as sent, so a padded value fails). */
  lemma BranchRule(x: Option<string>)
    ensures BranchError(x) == None <==> x.Some? && x.value in Branches
  {
    if x.Some? && x.value in Branches {
      BranchUnpadded(x.value);
      NotBlankNotMissing(x.value);
    }
  }

  /** The five branch names are non-empty and carry no white space at
      either end. */
  lemma BranchUnpadded(s: string)
    requires s in Branches
    ensures s != [] && !IsSpace(s[0]) && !IsSpace(s[|s| - 1])
  {
  }

  lemma NotBlankNotMissing(s: string)
    requires !IsBlank(s)
    ensures !Missing(Some(s))
  {
  }

  // ---------------------------------------------------------------- signup

  /** `req.body` of a signup; a field the form did not send is `None`. */
  datatype SignupBody = SignupBody(
    email: Option<string>,
    name: Option<string>,
    pinNumber: Option<string>,
    regulationNumber: Option<string>,
    mobileNumber: Option<string>,
    password: Option<string>,
    branch: Option<string>)

  /** The error, if any, the backend records for one field. */
  function SignupCheck(f: Field, b: SignupBody): Option<string>
  {
    match f
    case Email => EmailError(b.email)
    case Name => NameError(b.name)
    case PinNumber => PinError(b.pinNumber)
    case MobileNumber => MobileError(b.mobileNumber)
    case Password => PasswordError(b.password)
    case RegulationNumber => RegulationError(b.regulationNumber)
    case Branch => BranchError(b.branch)
    case _ => None
  }

  /** Every field the backend validates passes. */
  predicate SignupFieldsValid(b: SignupBody)
  {
    forall f :: SignupCheck(f, b) == None
  }

  /** What the valid body's fields mean, field by field. */
  lemma SignupFieldsValidMeaning(b: SignupBody)
    ensures SignupFieldsValid(b) <==>
      && b.email.Some? && LooksLikeEmail(b.email.value)
      && b.name.Some? && !IsBlank(b.name.value)
      && b.pinNumber.Some? && !IsBlank(b.pinNumber.value)
      && b.mobileNumber.Some? && ExactDigits(b.mobileNumber.value, 10)
      && b.password.Some? && !IsBlank(b.password.value) && |b.password.value| >= 6
      && b.regulationNumber.Some? && ExactDigits(b.regulationNumber.value, 2)
      && b.branch.Some? && b.branch.value in Branches
  {
    EmailRule(b.email);
    MobileRule(b.mobileNumber);
    PasswordRule(b.password);
    RegulationRule(b.regulationNumber);
    BranchRule(b.branch);
    assert SignupCheck(Email, b) == EmailError(b.email);
    assert SignupCheck(Name, b) == NameError(b.name);
    assert SignupCheck(PinNumber, b) == PinError(b.pinNumber);
    assert SignupCheck(MobileNumber, b) == MobileError(b.mobileNumber);
    assert SignupCheck(Password, b) == PasswordError(b.password);
    assert SignupCheck(RegulationNumber, b) == RegulationError(b.regulationNumber);
    assert SignupCheck(Branch, b) == BranchError(b.branch);
  }

  /** `newErrors[f] = e` when the check for `f` failed. */
  function Record(errors: map<Field, string>, f: Field, e: Option<string>): map<Field, string>
  {
    if e.Some? then errors[f := e.value] else errors
  }

  /** The errors the validation block collects, field by field in the
      order the handler checks them. */
  function SignupErrors(b: SignupBody): map<Field, string>
  {
    var m := Record(map[], Email, EmailError(b.email));
    var m := Record(m, Name, NameError(b.name));
    var m := Record(m, PinNumber, PinError(b.pinNumber));
    var m := Record(m, MobileNumber, MobileError(b.mobileNumber));
    var m := Record(m, Password, PasswordError(b.password));
    var m := Record(m, RegulationNumber, RegulationError(b.regulationNumber));
    Record(m, Branch, BranchError(b.branch))
  }

  lemma RecordLookup(m: map<Field, string>, f: Field, e: Option<string>, g: Field)
    ensures g in Record(m, f, e) <==> (g == f && e.Some?) || g in m
    ensures g in Record(m, f, e) ==> Record(m, f, e)[g] == if g == f && e.Some? then e.value else m[g]
  {
  }

  /** Every failing check leaves its own entry, and nothing else does. */
  lemma SignupErrorsMeaning(b: SignupBody)
    ensures forall f :: f in SignupErrors(b) <==> SignupCheck(f, b).Some?
    ensures forall f :: f in SignupErrors(b) ==> SignupErrors(b)[f] == SignupCheck(f, b).value
    ensures SignupErrors(b) == map[] <==> SignupFieldsValid(b)
  {
    forall f ensures (f in SignupErrors(b) <==> SignupCheck(f, b).Some?)
      && (f in SignupErrors(b) ==> SignupErrors(b)[f] == SignupCheck(f, b).value)
    {
      var m1 := Record(map[], Email, EmailError(b.email));
      var m2 := Record(m1, Name, NameError(b.name));
      var m3 := Record(m2, PinNumber, PinError(b.pinNumber));
      var m4 := Record(m3, MobileNumber, MobileError(b.mobileNumber));
      var m5 := Record(m4, Password, PasswordError(b.password));
      var m6 := Record(m5, RegulationNumber, RegulationError(b.regulationNumber));
      RecordLookup(map[], Email, EmailError(b.email), f);
      RecordLookup(m1, Name, NameError(b.name), f);
      RecordLookup(m2, PinNumber, PinError(b.pinNumber), f);
      RecordLookup(m3, MobileNumber, MobileError(b.mobileNumber), f);
      RecordLookup(m4, Password, PasswordError(b.password), f);
      RecordLookup(m5, RegulationNumber, RegulationError(b.regulationNumber), f);
      RecordLookup(m6, Branch, BranchError(b.branch), f);
    }
    if !SignupFieldsValid(b) {
      var f :| SignupCheck(f, b) != None;
      assert f in SignupErrors(b);
    }
  }

  /** One check of the validation block: record its message, if any, and
      clear `isValid`. */
  method RecordError(errors: map<Field, string>, isValid: bool, f: Field, e: Option<string>)
    returns (errors': map<Field, string>, isValid': bool)
    requires isValid <==> |errors| == 0
    ensures errors' == Record(errors, f, e)
    ensures isValid' <==> |errors'| == 0
  {
    errors', isValid' := errors, isValid;
    if e.Some? {
      errors' := errors'[f := e.value];
      isValid' := false;
    }
  }

  /** The validation block of `/signup`: every field is checked, an error is
      recorded for each failing one (not only the first), and `isValid` is
      cleared exactly when some check failed. */
  method ValidateSignup(b: SignupBody) returns (errors: map<Field, string>, isValid: bool)
    ensures errors == SignupErrors(b)
    ensures forall f :: f in errors <==> SignupCheck(f, b).Some?
    ensures forall f :: f in errors ==> errors[f] == SignupCheck(f, b).value
    ensures isValid <==> SignupFieldsValid(b)
  {
    errors := map[];
    isValid := true;
    errors, isValid := RecordError(errors, isValid, Email, EmailError(b.email));
    errors, isValid := RecordError(errors, isValid, Name, NameError(b.name));
    errors, isValid := RecordError(errors, isValid, PinNumber, PinError(b.pinNumber));
    errors, isValid := RecordError(errors, isValid, MobileNumber, MobileError(b.mobileNumber));
    errors, isValid := RecordError(errors, isValid, Password, PasswordError(b.password));
    errors, isValid := RecordError(errors, isValid, RegulationNumber, RegulationError(b.regulationNumber));
    errors, isValid := RecordError(errors, isValid, Branch, BranchError(b.branch));
    // The `file_url` check on the data URL never fires (see DataUrl).
    SignupErrorsMeaning(b);
  }
}
