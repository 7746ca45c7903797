/** The signup page of `Frontend/src/Components/Common/Signup.jsx`: the
    `formData`, `errors` and `photoPreview` state and the handlers that update
    them, and the submit-time validation with its per-field error map. The
    request itself and its reply are parameters. */
module SignupForm {
  import opened Common
  import opened Text
  import opened SignupRules

  /** The `formData` state record. */
  datatype FormData = FormData(
    email: string,
    name: string,
    pinNumber: string,
    regulationNumber: string,
    mobileNumber: string,
    password: string,
    confirmPassword: string,
    branch: string,
    photo: Option<FilePart>)

  /** The initial state, and the state after a successful signup. */
  const EmptyForm: FormData := FormData("", "", "", "", "", "", "", "", None)

  /** The fields bound to an `<input>` that calls `handleChange`. */
  predicate TextInput(f: Field)
  {
    !(f.Branch? || f.Photo? || f.FileUrl?)
  }

  function ValueOf(d: FormData, f: Field): string
    requires TextInput(f)
  {
    match f
    case Email => d.email
    case Name => d.name
    case PinNumber => d.pinNumber
    case RegulationNumber => d.regulationNumber
    case MobileNumber => d.mobileNumber
    case Password => d.password
    case ConfirmPassword => d.confirmPassword
  }

  /** `{ ...prev, [name]: value }`: one input replaced, all others kept. */
  function WithValue(d: FormData, f: Field, v: string): (e: FormData)
    requires TextInput(f)
    ensures ValueOf(e, f) == v
    ensures forall g :: TextInput(g) && g != f ==> ValueOf(e, g) == ValueOf(d, g)
    ensures e.branch == d.branch && e.photo == d.photo
  {
    match f
    case Email => d.(email := v)
    case Name => d.(name := v)
    case PinNumber => d.(pinNumber := v)
    case RegulationNumber => d.(regulationNumber := v)
    case MobileNumber => d.(mobileNumber := v)
    case Password => d.(password := v)
    case ConfirmPassword => d.(confirmPassword := v)
  }

  const SizeExceededMessage := "File size exceeds 5MB limit."
  const NotAnImageMessage := "Only image files are allowed."
  const InvalidFormMessage := "Please correct the errors in the form."
  const SignupSucceededMessage := "Signup successful!"
  const SignupFailedMessage := "Signup failed. Please try again."
  const UnreachableMessage := "Network error or server is unreachable. Please try again later."

  // ---------------------------------------------------------------- submit rules

  /** The confirm-password check: non-blank and equal to the password. */
  function ConfirmError(password: string, confirm: string): Option<string>
  {
    if Missing(Some(confirm)) then Some("Confirm password is required")
    else if password != confirm then Some("Passwords do not match")
    else None
  }

  /** The error, if any, `handleSubmit` records for one field. Email, name,
      pin, mobile, password and regulation number use the backend's rules and
      messages; the branch is only checked for being chosen, the photo for
      being present. */
  function ClientCheck(f: Field, d: FormData): Option<string>
  {
    match f
    case Email => EmailError(Some(d.email))
    case Name => NameError(Some(d.name))
    case PinNumber => PinError(Some(d.pinNumber))
    case MobileNumber => MobileError(Some(d.mobileNumber))
    case Password => PasswordError(Some(d.password))
    case ConfirmPassword => ConfirmError(d.password, d.confirmPassword)
    case RegulationNumber => RegulationError(Some(d.regulationNumber))
    case Branch => if d.branch == "" then Some("Please select your branch") else None
    case Photo => if d.photo.None? then Some("Please add your photo") else None
    case FileUrl => None
  }

  predicate ClientValid(d: FormData)
  {
    forall f :: ClientCheck(f, d) == None
  }

  /** The `newErrors` map of `handleSubmit`, in the order it checks. */
  function ClientErrors(d: FormData): map<Field, string>
  {
    var m := Record(map[], Email, ClientCheck(Email, d));
    var m := Record(m, Name, ClientCheck(Name, d));
    var m := Record(m, PinNumber, ClientCheck(PinNumber, d));
    var m := Record(m, MobileNumber, ClientCheck(MobileNumber, d));
    var m := Record(m, Password, ClientCheck(Password, d));
    var m := Record(m, ConfirmPassword, ClientCheck(ConfirmPassword, d));
    var m := Record(m, RegulationNumber, ClientCheck(RegulationNumber, d));
    var m := Record(m, Branch, ClientCheck(Branch, d));
    Record(m, Photo, ClientCheck(Photo, d))
  }

  /** Every failing check leaves its own entry and nothing else does, so the
      map is empty exactly when the form is valid. */
  lemma ClientErrorsMeaning(d: FormData)
    ensures forall f :: f in ClientErrors(d) <==> ClientCheck(f, d).Some?
    ensures forall f :: f in ClientErrors(d) ==> ClientErrors(d)[f] == ClientCheck(f, d).value
    ensures ClientErrors(d) == map[] <==> ClientValid(d)
  {
    forall f ensures (f in ClientErrors(d) <==> ClientCheck(f, d).Some?)
      && (f in ClientErrors(d) ==> ClientErrors(d)[f] == ClientCheck(f, d).value)
    {
      var m1 := Record(map[], Email, ClientCheck(Email, d));
      var m2 := Record(m1, Name, ClientCheck(Name, d));
      var m3 := Record(m2, PinNumber, ClientCheck(PinNumber, d));
      var m4 := Record(m3, MobileNumber, ClientCheck(MobileNumber, d));
      var m5 := Record(m4, Password, ClientCheck(Password, d));
      var m6 := Record(m5, ConfirmPassword, ClientCheck(ConfirmPassword, d));
      var m7 := Record(m6, RegulationNumber, ClientCheck(RegulationNumber, d));
      var m8 := Record(m7, Branch, ClientCheck(Branch, d));
      RecordLookup(map[], Email, ClientCheck(Email, d), f);
      RecordLookup(m1, Name, ClientCheck(Name, d), f);
      RecordLookup(m2, PinNumber, ClientCheck(PinNumber, d), f);
      RecordLookup(m3, MobileNumber, ClientCheck(MobileNumber, d), f);
      RecordLookup(m4, Password, ClientCheck(Password, d), f);
      RecordLookup(m5, ConfirmPassword, ClientCheck(ConfirmPassword, d), f);
      RecordLookup(m6, RegulationNumber, ClientCheck(RegulationNumber, d), f);
      RecordLookup(m7, Branch, ClientCheck(Branch, d), f);
      RecordLookup(m8, Photo, ClientCheck(Photo, d), f);
    }
    if !ClientValid(d) {
      var f :| ClientCheck(f, d) != None;
      assert f in ClientErrors(d);
    }
  }

  /** The validation block of `handleSubmit`: every field is checked and an
      error recorded for each failing one; `isValid` is cleared exactly when
      one failed. */
  method ValidateForm(d: FormData) returns (errors: map<Field, string>, isValid: bool)
    ensures errors == ClientErrors(d)
    ensures forall f :: f in errors <==> ClientCheck(f, d).Some?
    ensures forall f :: f in errors ==> errors[f] == ClientCheck(f, d).value
    ensures isValid <==> ClientValid(d)
    ensures isValid <==> errors == map[]
    ensures isValid ==> d.photo.Some?
  {
    errors := map[];
    isValid := true;
    errors, isValid := RecordError(errors, isValid, Email, ClientCheck(Email, d));
    errors, isValid := RecordError(errors, isValid, Name, ClientCheck(Name, d));
    errors, isValid := RecordError(errors, isValid, PinNumber, ClientCheck(PinNumber, d));
    errors, isValid := RecordError(errors, isValid, MobileNumber, ClientCheck(MobileNumber, d));
    errors, isValid := RecordError(errors, isValid, Password, ClientCheck(Password, d));
    errors, isValid := RecordError(errors, isValid, ConfirmPassword, ClientCheck(ConfirmPassword, d));
    errors, isValid := RecordError(errors, isValid, RegulationNumber, ClientCheck(RegulationNumber, d));
    errors, isValid := RecordError(errors, isValid, Branch, ClientCheck(Branch, d));
    errors, isValid := RecordError(errors, isValid, Photo, ClientCheck(Photo, d));
    ClientErrorsMeaning(d);
    assert isValid ==> ClientCheck(Photo, d) == None;
  }

  /** The multipart body `handleSubmit` posts: every text field as typed
      (`confirmPassword` is not sent) and the chosen photo. */
  datatype Submission = Submission(body: SignupBody, photo: FilePart)

  function SubmitBody(d: FormData): (b: SignupBody)
    ensures b.email == Some(d.email) && b.name == Some(d.name) && b.pinNumber == Some(d.pinNumber)
    ensures b.regulationNumber == Some(d.regulationNumber) && b.mobileNumber == Some(d.mobileNumber)
    ensures b.password == Some(d.password) && b.branch == Some(d.branch)
  {
    SignupBody(Some(d.email), Some(d.name), Some(d.pinNumber), Some(d.regulationNumber),
               Some(d.mobileNumber), Some(d.password), Some(d.branch))
  }

  /** Away from the branch, the client's checks are the backend's plus the
      confirm-password and photo checks: a form chosen from the dropdown's
      branches passes the client exactly when its body passes the backend,
      the confirmation matches and a photo is present. */
  lemma ClientMatchesBackend(d: FormData)
    requires d.branch == "" || d.branch in Branches
    ensures ClientValid(d) <==>
      SignupFieldsValid(SubmitBody(d)) && ConfirmError(d.password, d.confirmPassword) == None && d.photo.Some?
  {
    var b := SubmitBody(d);
    BranchRule(b.branch);
    if d.branch in Branches {
      BranchUnpadded(d.branch);
    }
    if ClientValid(d) {
      assert ClientCheck(ConfirmPassword, d) == None && ClientCheck(Photo, d) == None;
      forall f ensures SignupCheck(f, b) == None {
        assert ClientCheck(f, d) == None;
      }
    }
    if SignupFieldsValid(b) && ConfirmError(d.password, d.confirmPassword) == None && d.photo.Some? {
      forall f ensures ClientCheck(f, d) == None {
        assert SignupCheck(f, b) == None;
      }
    }
  }

  /** The client's branch check is weaker than the backend's: a non-empty
      branch outside the five passes the form and is refused by `/signup`. */
  lemma ClientBranchCheckLaxer(d: FormData)
    requires ClientValid(d) && d.branch !in Branches
    ensures !SignupFieldsValid(SubmitBody(d))
  {
    BranchRule(SubmitBody(d).branch);
    assert SignupCheck(Branch, SubmitBody(d)) != None;
  }

  /** The reply `handleSubmit` reads back: `response.ok`, `result.message` and
      `result.errors`; `Unreachable` is a failed `fetch` or a body that is not
      JSON. */
  datatype ServerReply = Answered(ok: bool, message: Option<string>, errors: Option<map<Field, string>>) | Unreachable

  /** `result.message || fallback`: an absent or empty message gives way. */
  function MessageOr(m: Option<string>, fallback: string): (r: string)
    ensures m.Some? && m.value != "" ==> r == m.value
    ensures !(m.Some? && m.value != "") ==> r == fallback
    ensures r == "" ==> fallback == ""
  {
    if m.Some? && m.value != "" then m.value else fallback
  }

  /** The photo `handlePhotoChange` keeps: within 5 MB and of an `image/` type. */
  predicate PhotoAccepted(f: FilePart)
  {
    f.size <= MaxPhotoBytes && FileFilter(f.mimetype)
  }

  /** A photo the form keeps is one the upload middleware accepts, and the
      other way round. */
  lemma PhotoAcceptedIffUploaded(f: FilePart)
    ensures PhotoAccepted(f) <==> Multer(Some(f)) == Accepted(f)
  {
  }

  class SignupPage {
    var formData: FormData
    var errors: map<Field, string>
    var photoPreview: Option<FilePart>
    var showBranchDropdown: bool
    var message: string
    var isSuccess: bool
    var loading: bool

    /** What every handler keeps: the regulation number never grows past two
        characters, the branch is unset or one the dropdown offers, a kept
        photo passed the size and type checks, the preview shows exactly the
        kept photo, and while a signup is in flight no message is shown. */
    ghost predicate Valid()
      reads this
    {
      && |formData.regulationNumber| <= 2
      && (formData.branch == "" || formData.branch in Branches)
      && (formData.photo.Some? ==> PhotoAccepted(formData.photo.value))
      && photoPreview == formData.photo
      && (loading ==> message == "" && !isSuccess)
    }

    constructor ()
      ensures Valid()
      ensures formData == EmptyForm && errors == map[] && photoPreview == None
      ensures !showBranchDropdown && message == "" && !isSuccess && !loading
    {
      formData := EmptyForm;
      errors := map[];
      photoPreview := None;
      showBranchDropdown := false;
      message := "";
      isSuccess := false;
      loading := false;
    }

    /** `handleChange`. The regulation number takes a value of at most two
        digits as typed, cuts a longer value to its first two characters
        (digits or not), and ignores anything else; every other input is
        stored as typed. An accepted change clears that field's error. */
    method HandleChange(f: Field, v: string)
      requires TextInput(f) && Valid()
      modifies this
      ensures Valid()
      ensures f.RegulationNumber? && AtMostDigits(v, 2) ==>
        formData == old(formData).(regulationNumber := v) && errors == old(errors)[f := ""]
      ensures f.RegulationNumber? && !AtMostDigits(v, 2) && |v| > 2 ==>
        formData == old(formData).(regulationNumber := v[..2]) && errors == old(errors)[f := ""]
      ensures f.RegulationNumber? && !AtMostDigits(v, 2) && |v| <= 2 ==>
        formData == old(formData) && errors == old(errors)
      ensures !f.RegulationNumber? ==> formData == WithValue(old(formData), f, v) && errors == old(errors)[f := ""]
      ensures photoPreview == old(photoPreview) && showBranchDropdown == old(showBranchDropdown)
      ensures message == old(message) && isSuccess == old(isSuccess) && loading == old(loading)
    {
      if f.RegulationNumber? {
        if AtMostDigits(v, 2) {
          formData := formData.(regulationNumber := v);
          errors := errors[f := ""];
        } else if |v| > 2 {
          formData := formData.(regulationNumber := v[..2]);
          errors := errors[f := ""];
        }
      } else {
        formData := WithValue(formData, f, v);
        errors := errors[f := ""];
      }
    }

    /** `handleBranchSelect`: store the choice, clear its error, close the
        dropdown. The dropdown offers only the five branch names. */
    method HandleBranchSelect(selected: string)
      requires Valid() && selected in Branches
      modifies this
      ensures Valid()
      ensures formData == old(formData).(branch := selected) && errors == old(errors)[Branch := ""]
      ensures !showBranchDropdown
      ensures photoPreview == old(photoPreview) && message == old(message) && isSuccess == old(isSuccess)
      ensures loading == old(loading)
    {
      formData := formData.(branch := selected);
      errors := errors[Branch := ""];
      showBranchDropdown := false;
    }

    /** `handlePhotoChange`. No file clears the photo and its error. A file
        over 5 MB is refused before its type is looked at; a non-image is
        refused next; a refused file also drops any earlier photo. Anything
        else is kept and previewed. */
    method HandlePhotoChange(file: Option<FilePart>)
      requires Valid()
      modifies this
      ensures Valid()
      ensures file.None? ==>
        formData.photo == None && errors == old(errors)[Photo := ""]
      ensures file.Some? && file.value.size > MaxPhotoBytes ==>
        formData.photo == None && errors == old(errors)[Photo := SizeExceededMessage]
      ensures file.Some? && file.value.size <= MaxPhotoBytes && !FileFilter(file.value.mimetype) ==>
        formData.photo == None && errors == old(errors)[Photo := NotAnImageMessage]
      ensures file.Some? && PhotoAccepted(file.value) ==>
        formData.photo == file && errors == old(errors)[Photo := ""]
      ensures formData.photo.Some? <==> file.Some? && Multer(file).Accepted?
      ensures formData == old(formData).(photo := formData.photo) && photoPreview == formData.photo
      ensures showBranchDropdown == old(showBranchDropdown) && message == old(message) && isSuccess == old(isSuccess)
      ensures loading == old(loading)
    {
      if file.Some? {
        if file.value.size > MaxPhotoBytes {
          errors := errors[Photo := SizeExceededMessage];
          formData := formData.(photo := None);
          photoPreview := None;
          return;
        }
        if !StartsWith(file.value.mimetype, "image/") {
          errors := errors[Photo := NotAnImageMessage];
          formData := formData.(photo := None);
          photoPreview := None;
          return;
        }
        formData := formData.(photo := file);
        photoPreview := file;
        errors := errors[Photo := ""];
      } else {
        formData := formData.(photo := None);
        photoPreview := None;
        errors := errors[Photo := ""];
      }
    }

    /** `handleSubmit`, up to the `fetch`. While a signup is in flight the
        button is disabled (`disabled={loading}`) and nothing happens. An
        invalid form shows its error map and the general message and sends
        nothing. A valid one clears the message, sets `loading` and is
        posted; its reply arrives later, in ReadReply. */
    method HandleSubmit() returns (sent: Option<Submission>)
      requires Valid()
      modifies this
      ensures Valid()
      ensures old(loading) ==> sent.None? && unchanged(this)
      ensures !old(loading) ==> (sent.Some? <==> ClientValid(old(formData)))
      ensures sent.Some? ==> old(formData).photo.Some? && sent.value == Submission(SubmitBody(old(formData)), old(formData).photo.value)
      ensures sent.Some? ==> SignupFieldsValid(sent.value.body) && Multer(Some(sent.value.photo)) == Accepted(sent.value.photo)
      ensures sent.Some? ==> loading && errors == map[] && message == "" && !isSuccess
      ensures !old(loading) && sent.None? ==>
        && errors == ClientErrors(old(formData)) && errors != map[]
        && message == InvalidFormMessage && !isSuccess && !loading
      ensures formData == old(formData) && photoPreview == old(photoPreview)
      ensures showBranchDropdown == old(showBranchDropdown)
    {
      if loading {
        return None;
      }
      var newErrors, isValid := ValidateForm(formData);
      errors := newErrors;
      if !isValid {
        message := InvalidFormMessage;
        isSuccess := false;
        sent := None;
        return;
      }
      ClientMatchesBackend(formData);
      loading := true;
      message := "";
      isSuccess := false;
      sent := Some(Submission(SubmitBody(formData), formData.photo.value));
    }

    /** The state after the reply, given the form `d` and errors `e` on the
        page when it arrives. A successful reply resets every field, the
        photo, the preview and the errors; a refused one keeps the form and
        shows the server's message and its error map, if any; no reply keeps
        the form and the errors and shows the network message. In every case
        `loading` ends. */
    ghost predicate Replied(reply: ServerReply, d: FormData, e: map<Field, string>)
      reads this
    {
      && !loading
      && match reply
         case Answered(ok, m, replyErrors) =>
           if ok then
             && formData == EmptyForm && photoPreview == None && errors == map[]
             && message == MessageOr(m, SignupSucceededMessage) && isSuccess
           else
             && formData == d && !isSuccess && message == MessageOr(m, SignupFailedMessage)
             && errors == (if replyErrors.Some? then replyErrors.value else e)
         case Unreachable =>
           formData == d && errors == e && message == UnreachableMessage && !isSuccess
    }

    /** The completion of the `fetch` that HandleSubmit started: the
        `response.ok` branch, the error branch and the `catch`, then
        `finally`. */
    method ReadReply(reply: ServerReply)
      requires Valid()
      modifies this
      ensures Valid()
      ensures Replied(reply, old(formData), old(errors))
      ensures showBranchDropdown == old(showBranchDropdown)
    {
      match reply {
        case Answered(ok, m, replyErrors) =>
          if ok {
            message := MessageOr(m, SignupSucceededMessage);
            isSuccess := true;
            formData := EmptyForm;
            photoPreview := None;
            errors := map[];
          } else {
            message := MessageOr(m, SignupFailedMessage);
            isSuccess := false;
            if replyErrors.Some? {
              errors := replyErrors.value;
            }
          }
        case Unreachable =>
          message := UnreachableMessage;
          isSuccess := false;
      }
      loading := false;
    }
  }
}
