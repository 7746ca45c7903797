/** The two Mongoose models of `Backend/models/User.js`: the user schema with
    its setters, enums and unique indexes, the password pre-save hook and
    `comparePassword`, and the order schema with its `Order_Date` and `Status`
    defaults. The database is a sequence of documents in natural order. */
module Models {
  import opened Common
  import opened Text

  /** `user_role`: the schema admits exactly these three values. */
  datatype Role = Student | Admin | Librarian

  function RoleName(r: Role): (name: string)
    ensures name in {"student", "admin", "librarian"}
  {
    match r
    case Student => "student"
    case Admin => "admin"
    case Librarian => "librarian"
  }

  /** `default: 'student'`. */
  const DefaultRole: Role := Student

  /** Distinct roles have distinct stored names, so the enum is faithful. */
  lemma RoleNamesDistinct(r1: Role, r2: Role)
    ensures RoleName(r1) == RoleName(r2) <==> r1 == r2
  {
  }

  /** The stored password. bcrypt is modelled as an ideal salted one-way
      function: a digest remembers what it was computed from, and nothing
      else produces it. */
  datatype Password = Plain(text: string) | BcryptHash(input: Password, salt: nat)

  /** `bcrypt.compare(candidate, stored)`: true only for a digest of exactly
      the candidate; a stored value that is not a digest never matches. */
  function BcryptCompare(candidate: string, stored: Password): bool
  {
    stored.BcryptHash? && stored.input == Plain(candidate)
  }

  /** What hashing at signup and comparing at login promise together. */
  lemma {:induction false} HashedPasswordMatchesOnlyItself(password: string, candidate: string, salt: nat)
    ensures BcryptCompare(candidate, BcryptHash(Plain(password), salt)) <==> candidate == password
    ensures !BcryptCompare(candidate, Plain(password))
  {
  }

  datatype User = User(
    id: nat,
    email: string,
    name: string,
    pinNumber: string,
    regulationNumber: string,
    mobileNumber: string,
    password: Password,
    branch: string,
    fileUrl: string,
    role: Role)

  /** The email setter chain: `trim: true`, then `lowercase: true`. */
  function NormaliseEmail(email: string): (r: string)
    ensures Trim(r) == r && ToLower(r) == r
  {
    NormaliseIdempotent(email);
    ToLower(Trim(email))
  }

  /** The setters Mongoose runs when a document's fields are assigned: email
      trimmed and lower-cased; name, pin, regulation and mobile number trimmed.
      `password`, `branch` and `file_url` have no setter. */
  function ApplySetters(u: User): (v: User)
    ensures v.email == NormaliseEmail(u.email)
    ensures v.name == Trim(u.name) && v.pinNumber == Trim(u.pinNumber)
    ensures v.regulationNumber == Trim(u.regulationNumber) && v.mobileNumber == Trim(u.mobileNumber)
    ensures v.id == u.id && v.password == u.password && v.branch == u.branch
    ensures v.fileUrl == u.fileUrl && v.role == u.role
  {
    u.(email := NormaliseEmail(u.email), name := Trim(u.name), pinNumber := Trim(u.pinNumber),
       regulationNumber := Trim(u.regulationNumber), mobileNumber := Trim(u.mobileNumber))
  }

  /** Running the setters on a stored document changes nothing. */
  lemma SettersIdempotent(u: User)
    ensures ApplySetters(ApplySetters(u)) == ApplySetters(u)
  {
    TrimIdempotent(u.name);
    TrimIdempotent(u.pinNumber);
    TrimIdempotent(u.regulationNumber);
    TrimIdempotent(u.mobileNumber);
    var e := NormaliseEmail(u.email);
    assert NormaliseEmail(e) == ToLower(Trim(e)) == e;
  }

  /** What the user schema accepts: the setters have been applied and every
      `required: true` string is non-empty. The role is an enum value by type. */
  predicate SchemaValid(u: User)
  {
    && ApplySetters(u) == u
    && u.email != [] && u.name != [] && u.pinNumber != [] && u.regulationNumber != []
    && u.mobileNumber != [] && u.branch != [] && u.fileUrl != []
  }

  /** The three `unique: true` indexes. */
  datatype UniqueKey = EmailKey | PinKey | MobileKey

  function KeyOf(u: User, k: UniqueKey): string
  {
    match k
    case EmailKey => u.email
    case PinKey => u.pinNumber
    case MobileKey => u.mobileNumber
  }

  /** No two documents share a value of any unique index. */
  predicate UniqueIndexes(users: seq<User>)
  {
    forall i, j, k :: 0 <= i < j < |users| ==> KeyOf(users[i], k) != KeyOf(users[j], k)
  }

  /** The collection as the handlers leave it: every document passes the
      schema, holds a bcrypt digest (the pre-save hook ran), carries its
      position as `_id`, and the unique indexes hold. */
  predicate StoreValid(users: seq<User>)
  {
    && UniqueIndexes(users)
    && forall i :: 0 <= i < |users| ==>
         SchemaValid(users[i]) && users[i].password.BcryptHash? && users[i].id == i
  }

  /** A document being saved, with Mongoose's record of whether `password`
      was assigned since it was loaded. */
  class UserDocument {
    var user: User
    var passwordModified: bool

    /** `new User({...})`: every assigned path counts as modified. */
    constructor (fields: User)
      ensures user == ApplySetters(fields) && passwordModified
    {
      user := ApplySetters(fields);
      passwordModified := true;
    }

    /** `userSchema.pre('save')`: an unmodified password is left alone;
        otherwise it is replaced by its bcrypt digest under a fresh salt. */
    method PreSave(salt: nat)
      modifies this
      ensures passwordModified == old(passwordModified)
      ensures !passwordModified ==> user == old(user)
      ensures passwordModified ==> user == old(user).(password := BcryptHash(old(user).password, salt))
    {
      if !passwordModified {
        return;
      }
      user := user.(password := BcryptHash(user.password, salt));
    }

    /** `comparePassword(candidate)`. */
    function ComparePassword(candidate: string): bool
      reads this
    {
      BcryptCompare(candidate, user.password)
    }
  }

  /** After the hook has hashed a freshly assigned plain password, exactly
      that password passes `comparePassword`. */
  method HashThenCompare(fields: User, plain: string, candidate: string, salt: nat) returns (ok: bool)
    ensures ok <==> candidate == plain
  {
    var doc := new UserDocument(fields.(password := Plain(plain)));
    doc.PreSave(salt);
    ok := doc.ComparePassword(candidate);
  }

  /** `{ code, name }` entries of an order's `Subjects` and of the cart. */
  datatype Subject = Subject(code: string, name: string)

  /** An order document. `Status` is kept as a string: the client views also
      read the values `recieved` and `completed`, which the schema enum does
      not contain. */
  datatype Order = Order(orderId: string, userName: string, subjects: seq<Subject>, orderDate: string, status: string)

  /** The `Status` enum and its default. */
  datatype OrderStatus = Pending | Approved | Rejected

  function StatusName(s: OrderStatus): string
  {
    match s
    case Pending => "pending"
    case Approved => "approved"
    case Rejected => "rejected"
  }

  const DefaultStatus: OrderStatus := Pending

  /** What `new Date()` reports: `getDate()` (1 to 31), `getMonth()` (0 to 11)
      and `getFullYear()`. */
  datatype Clock = Clock(date: nat, monthIndex: nat, fullYear: nat)

  predicate ValidClock(c: Clock)
  {
    1 <= c.date <= 31 && c.monthIndex < 12
  }

  /** A calendar day with a 1-based month, as the client reads dates back. */
  datatype DayMonthYear = DayMonthYear(day: nat, month: nat, year: nat)

  /** The `Order_Date` default: `DD-MM-YYYY`, day and 1-based month padded
      to two digits, the year as `String(year)`. */
  function FormatOrderDate(c: Clock): (s: string)
    requires ValidClock(c)
    ensures |s| >= 7 && s[2] == '-' && s[5] == '-'
    ensures AllDigits(s[..2]) && AllDigits(s[3..5]) && AllDigits(s[6..])
  {
    var day := PadTwo(c.date);
    var month := PadTwo(c.monthIndex + 1);
    var s := day + "-" + month + "-" + DecimalString(c.fullYear);
    assert s[..2] == day && s[3..5] == month && s[6..] == DecimalString(c.fullYear);
    s
  }

  /** How `My_Books.jsx` reads a date back:
      `const [d, m, y] = s.split('-').map(Number)`. Fewer than three parts or
      a part that is not a number gives `None` (an invalid `Date`). */
  function ParseOrderDate(s: string): Option<DayMonthYear>
  {
    var parts := Split(s, '-');
    if |parts| < 3 then None
    else
      var day, month, year := ToNumber(parts[0]), ToNumber(parts[1]), ToNumber(parts[2]);
      if day.Some? && month.Some? && year.Some? then Some(DayMonthYear(day.value, month.value, year.value))
      else None
  }

  /** The stored date reads back as the day, the 1-based month and the year
      it was made from. */
  lemma OrderDateRoundTrip(c: Clock)
    requires ValidClock(c)
    ensures ParseOrderDate(FormatOrderDate(c)) == Some(DayMonthYear(c.date, c.monthIndex + 1, c.fullYear))
  {
    var parts := Split(FormatOrderDate(c), '-');
    FormattedDateFields(c);
    PadTwoRoundTrip(c.date);
    PadTwoRoundTrip(c.monthIndex + 1);
    DecimalNumberRoundTrip(c.fullYear);
    assert ToNumber(parts[0]) == Some(c.date);
    assert ToNumber(parts[1]) == Some(c.monthIndex + 1);
    assert ToNumber(parts[2]) == Some(c.fullYear);
  }

  lemma FormattedDateFields(c: Clock)
    requires ValidClock(c)
    ensures Split(FormatOrderDate(c), '-') == [PadTwo(c.date), PadTwo(c.monthIndex + 1), DecimalString(c.fullYear)]
  {
    SplitThreeFields(PadTwo(c.date), PadTwo(c.monthIndex + 1), DecimalString(c.fullYear));
  }

  /** Three digit fields joined by `-` split back into themselves. */
  lemma SplitThreeFields(day: string, month: string, year: string)
    requires AllDigits(day) && AllDigits(month) && AllDigits(year)
    ensures Split(day + "-" + month + "-" + year, '-') == [day, month, year]
  {
    DigitsHaveNoDash(day);
    DigitsHaveNoDash(month);
    DigitsHaveNoDash(year);
    SplitAfterField(day, '-', month + "-" + year);
    SplitAfterField(month, '-', year);
    SplitWithoutSeparator(year, '-');
    assert day + "-" + month + "-" + year == day + ['-'] + (month + ['-'] + year);
  }

  /** `new Order({ Order_ID, User_Name, Subjects })`: the schema fills in
      today's date and the `pending` status. */
  function NewOrder(orderId: string, userName: string, subjects: seq<Subject>, today: Clock): (o: Order)
    requires ValidClock(today)
    ensures o.status == "pending"
    ensures ParseOrderDate(o.orderDate) == Some(DayMonthYear(today.date, today.monthIndex + 1, today.fullYear))
    ensures o.orderId == orderId && o.userName == userName && o.subjects == subjects
  {
    OrderDateRoundTrip(today);
    Order(orderId, userName, subjects, FormatOrderDate(today), StatusName(DefaultStatus))
  }

  /** A status the order schema accepts. */
  predicate SchemaStatus(status: string)
  {
    exists s: OrderStatus :: StatusName(s) == status
  }

  /** The enum is exactly `pending`, `approved`, `rejected`; the client's
      `recieved` and `completed` are outside it. */
  lemma SchemaStatusValues(status: string)
    ensures SchemaStatus(status) <==> status in {"pending", "approved", "rejected"}
  {
    if status == "pending" { assert StatusName(Pending) == status; }
    if status == "approved" { assert StatusName(Approved) == status; }
    if status == "rejected" { assert StatusName(Rejected) == status; }
  }
}
