/**
 * The employee intake form (src/AddEmployee.js): eight text fields, a map
 * from field name to error message (a message whose text is '' meaning
 * "no error"), a success message and a busy flag, changed step by step by
 * the form's handlers.
 *
 * The clock is an input: `today` is the calendar day (UTC) of the moment of
 * submission, written as the number YYYYMMDD. The create request's outcome
 * is an input too (`CreateOutcome`).
 */
module Intake {
  import opened Text
  import opened EmailPattern

  /** The eight form fields; each is named in a comment by its key in the form's state. */
  datatype Field =
    | EmployeeId     // employee_id
    | FirstName      // first_name
    | LastName       // last_name
    | Email          // email
    | PhoneNumber    // phone_number
    | Department     // department
    | DateOfJoining  // date_of_joining
    | Role           // role

  const AllFields: set<Field> :=
    {EmployeeId, FirstName, LastName, Email, PhoneNumber, Department, DateOfJoining, Role}

  /** Every field is one of the eight. */
  lemma AllFieldsListed()
    ensures forall f: Field :: f in AllFields
  {
    forall f: Field
      ensures f in AllFields
    {
      match f
      case EmployeeId =>
      case FirstName =>
      case LastName =>
      case Email =>
      case PhoneNumber =>
      case Department =>
      case DateOfJoining =>
      case Role =>
    }
  }

  /** The name of a field's key in the form's state, and so in a server payload. */
  function FieldName(f: Field): string
  {
    match f
    case EmployeeId => "employee_id"
    case FirstName => "first_name"
    case LastName => "last_name"
    case Email => "email"
    case PhoneNumber => "phone_number"
    case Department => "department"
    case DateOfJoining => "date_of_joining"
    case Role => "role"
  }

  /**
   * A key of the error map: a field's own key, or any other key a server
   * payload may carry (such as "message"). `KeyOf` turns a payload's key
   * names into these, so an `OtherKey` it builds never spells a field's name.
   */
  datatype ErrorKey = FieldKey(field: Field) | OtherKey(name: string)

  /** The error-map key named `name`. */
  function KeyOf(name: string): (k: ErrorKey)
    ensures k.FieldKey? ==> FieldName(k.field) == name
    ensures k.OtherKey? ==> k.name == name
  {
    if name == FieldName(EmployeeId) then FieldKey(EmployeeId)
    else if name == FieldName(FirstName) then FieldKey(FirstName)
    else if name == FieldName(LastName) then FieldKey(LastName)
    else if name == FieldName(Email) then FieldKey(Email)
    else if name == FieldName(PhoneNumber) then FieldKey(PhoneNumber)
    else if name == FieldName(Department) then FieldKey(Department)
    else if name == FieldName(DateOfJoining) then FieldKey(DateOfJoining)
    else if name == FieldName(Role) then FieldKey(Role)
    else OtherKey(name)
  }

  /** A payload key that spells a field's name is that field's own key, the one `handleChange` clears. */
  lemma KeyOfFieldName(f: Field)
    ensures KeyOf(FieldName(f)) == FieldKey(f)
  {
    match f
    case EmployeeId =>
    case FirstName =>
    case LastName =>
    case Email =>
    case PhoneNumber =>
    case Department =>
    case DateOfJoining =>
    case Role =>
  }

  /** The key under which server and transport failures are reported. */
  const MessageKey := OtherKey("message")

  /**
   * The messages the form stores in its error map, each rendered by `MessageText`
   * as the exact string the form uses. `NoError` is the '' that clears a
   * field's error; `ServerText` is a message string from a server payload.
   */
  datatype Message =
    | Required(field: Field)
    | PhoneDigitsOnly
    | PhoneLength
    | EmailInvalid
    | FutureDate
    | ServerError
    | Unexpected
    | NoError
    | ServerText(text: string)

  /** The "required" message of each field. */
  function RequiredText(f: Field): (t: string)
    ensures t != ""
  {
    match f
    case EmployeeId => "Employee ID is required."
    case FirstName => "First Name is required."
    case LastName => "Last Name is required."
    case Email => "Email is required."
    case PhoneNumber => "Phone number is required."
    case Department => "Department is required."
    case DateOfJoining => "Date of joining is required."
    case Role => "Role is required."
  }

  /** The string the form stores for a message; only `NoError` and an empty server string are ''. */
  function MessageText(m: Message): (t: string)
    ensures t == "" <==> m == NoError || m == ServerText("")
  {
    match m
    case Required(f) => RequiredText(f)
    case PhoneDigitsOnly => "Only numbers are allowed, and the length must be 10 digits."
    case PhoneLength => "Phone number must contain exactly 10 digits."
    case EmailInvalid => "Please enter a valid email address."
    case FutureDate => "Date of joining cannot be in the future."
    case ServerError => "An error occurred"
    case Unexpected => "An unexpected error occurred. Please try again later."
    case NoError => ""
    case ServerText(text) => text
  }

  /** The success message shown after a create. */
  function CreatedMessage(): string
  {
    "Employee added successfully!"
  }

  /** A field's value; a missing one reads as '' (JavaScript's `undefined` is falsy too). */
  function Value(form: map<Field, string>, f: Field): string
  {
    if f in form then form[f] else ""
  }

  /** The form with every field at ''. */
  function EmptyForm(): (form: map<Field, string>)
    ensures form.Keys == AllFields
    ensures forall f :: f in form ==> form[f] == ""
  {
    map f | f in AllFields :: ""
  }

  /** `/^\d{0,10}$/`: at most ten ASCII digits. */
  predicate IsPhoneInput(v: string)
  {
    |v| <= 10 && forall i :: 0 <= i < |v| ==> IsAsciiDigit(v[i])
  }

  /**
   * Editing the phone field: one more digit is accepted while it holds fewer
   * than ten, never an eleventh character or a non-digit, and deleting the
   * last character is always accepted.
   */
  lemma PhoneInputEditing(v: string, c: char)
    requires IsPhoneInput(v)
    ensures IsPhoneInput(v + [c]) <==> |v| < 10 && IsAsciiDigit(c)
    ensures v != "" ==> IsPhoneInput(v[..|v| - 1])
  {
    assert (v + [c])[|v|] == c;
  }

  lemma PhoneInputExamples()
    ensures IsPhoneInput("") && IsPhoneInput("5551234567")
    ensures !IsPhoneInput("55512345678") && !IsPhoneInput("555-123")
  {
    assert "55512345678"[..] != [] && |"55512345678"| == 11;
    assert "555-123"[3] == '-';
  }

  // ---------------------------------------------------------------------
  // Dates

  /** The number written by the ASCII digits `s`. */
  function DigitsValue(s: string): nat
    requires forall i :: 0 <= i < |s| ==> IsAsciiDigit(s[i])
  {
    if s == [] then 0
    else
      var last := s[|s| - 1];
      assert IsAsciiDigit(last);
      10 * DigitsValue(s[..|s| - 1]) + (last as int - '0' as int)
  }

  predicate IsDateShape(s: string)
  {
    && |s| == 10 && s[4] == '-' && s[7] == '-'
    && (forall i :: 0 <= i < 4 ==> IsAsciiDigit(s[i]))
    && IsAsciiDigit(s[5]) && IsAsciiDigit(s[6]) && IsAsciiDigit(s[8]) && IsAsciiDigit(s[9])
  }

  /**
   * A "YYYY-MM-DD" date as the number YYYYMMDD. Any other string is not
   * treated as a date, so it is never in the future (README, "Left out").
   */
  function DateStamp(s: string): (r: Option<int>)
    ensures r.Some? ==> IsDateShape(s)
  {
    if IsDateShape(s) then
      var y, m, d := YearOf(s), MonthOf(s), DayOf(s);
      if 1 <= m <= 12 && 1 <= d <= 31 then Some(10000 * y + 100 * m + d) else None
    else None
  }

  function YearOf(s: string): nat
    requires IsDateShape(s)
  {
    DigitsValue(s[..4])
  }

  function MonthOf(s: string): nat
    requires IsDateShape(s)
  {
    DigitsValue(s[5..7])
  }

  function DayOf(s: string): nat
    requires IsDateShape(s)
  {
    DigitsValue(s[8..])
  }

  /** Day `d` of month `m` of year `y` comes after day `d'` of month `m'` of year `y'`. */
  predicate DayAfter(y: int, m: int, d: int, y': int, m': int, d': int)
  {
    y > y' || (y == y' && (m > m' || (m == m' && d > d')))
  }

  /** The number YYYYMMDD orders days as the calendar does. */
  lemma StampOrder(y: nat, m: nat, d: nat, y': nat, m': nat, d': nat)
    requires 1 <= m <= 12 && 1 <= d <= 31 && 1 <= m' <= 12 && 1 <= d' <= 31
    ensures 10000 * y + 100 * m + d > 10000 * y' + 100 * m' + d' <==> DayAfter(y, m, d, y', m', d')
  {
  }

  /**
   * The date is after the day `today`. A date string means midnight UTC of
   * that day, so it lies after the current instant exactly when its day
   * comes after the current day.
   */
  predicate IsFuture(date: string, today: int)
  {
    match DateStamp(date)
    case Some(d) => d > today
    case None => false
  }

  /**
   * With today the day `d` of month `m` of year `y`, a joining date is in the
   * future exactly when it is a well-formed date whose day comes later.
   */
  lemma IsFutureIff(date: string, y: nat, m: nat, d: nat)
    requires 1 <= m <= 12 && 1 <= d <= 31
    ensures IsFuture(date, 10000 * y + 100 * m + d) <==>
      && IsDateShape(date)
      && 1 <= MonthOf(date) <= 12 && 1 <= DayOf(date) <= 31
      && DayAfter(YearOf(date), MonthOf(date), DayOf(date), y, m, d)
  {
    if IsDateShape(date) && 1 <= MonthOf(date) <= 12 && 1 <= DayOf(date) <= 31 {
      StampOrder(YearOf(date), MonthOf(date), DayOf(date), y, m, d);
    }
  }

  lemma TodayIsNotFutureButTomorrowIs()
    ensures !IsFuture("2024-03-05", 20240305)
    ensures IsFuture("2024-03-06", 20240305)
  {
    var s, t := "2024-03-05", "2024-03-06";
    assert s[..4] == "2024" && s[5..7] == "03" && s[8..] == "05";
    assert t[..4] == "2024" && t[5..7] == "03" && t[8..] == "06";
    assert DigitsValue("2024") == 2024 by {
      assert "2024"[..3] == "202" && "202"[..2] == "20" && "20"[..1] == "2" && "2"[..0] == "";
    }
    assert DigitsValue("03") == 3 by {
      assert "03"[..1] == "0" && "0"[..0] == "";
    }
    assert DigitsValue("05") == 5 by {
      assert "05"[..1] == "0" && "0"[..0] == "";
    }
    assert DigitsValue("06") == 6 by {
      assert "06"[..1] == "0" && "0"[..0] == "";
    }
  }

  // ---------------------------------------------------------------------
  // Validation

  /** The message validation gives field `f`, if any, judging that field alone. */
  function FieldError(form: map<Field, string>, f: Field, today: int): (r: Option<Message>)
    ensures Value(form, f) == "" ==> r == Some(Required(f))
    ensures r.Some? ==> r.value != NoError && !r.value.ServerText?
  {
    var v := Value(form, f);
    if v == "" then Some(Required(f))
    else if f == PhoneNumber && |v| != 10 then Some(PhoneLength)
    else if f == Email && !EmailMatches(v) then Some(EmailInvalid)
    else if f == DateOfJoining && IsFuture(v, today) then Some(FutureDate)
    else None
  }

  /** The error map validation produces: one entry per field that fails, under that field's key. */
  function ValidationErrors(form: map<Field, string>, today: int): (r: map<ErrorKey, Message>)
    ensures forall k :: k in r ==> k.FieldKey? && r[k] != NoError && !r[k].ServerText?
    ensures forall f :: Value(form, f) == "" ==> FieldKey(f) in r && r[FieldKey(f)] == Required(f)
  {
    AllFieldsListed();
    map f | f in AllFields && FieldError(form, f, today).Some? :: FieldKey(f) := FieldError(form, f, today).value
  }

  // The rules as the form applies them: eight "required" checks in field
  // order, then the phone, e-mail and date checks, each overwriting its own
  // field's entry.

  /** The "required" check of field `f` applied to the map `m`. */
  ghost function RequireFilled(m: map<ErrorKey, Message>, form: map<Field, string>, f: Field): map<ErrorKey, Message>
  {
    if Value(form, f) == "" then m[FieldKey(f) := Required(f)] else m
  }

  /** The eight "required" checks, in field order. */
  ghost function RequiredChecks(form: map<Field, string>): map<ErrorKey, Message>
  {
    var m1 := RequireFilled(map[], form, EmployeeId);
    var m2 := RequireFilled(m1, form, FirstName);
    var m3 := RequireFilled(m2, form, LastName);
    var m4 := RequireFilled(m3, form, Email);
    var m5 := RequireFilled(m4, form, PhoneNumber);
    var m6 := RequireFilled(m5, form, Department);
    var m7 := RequireFilled(m6, form, DateOfJoining);
    RequireFilled(m7, form, Role)
  }

  /** Membership and value of one key after one "required" check. */
  lemma RequireFilledAt(m: map<ErrorKey, Message>, form: map<Field, string>, f: Field, k: ErrorKey)
    ensures k in RequireFilled(m, form, f) <==> k in m || (k == FieldKey(f) && Value(form, f) == "")
    ensures k in RequireFilled(m, form, f) ==>
      RequireFilled(m, form, f)[k] == if k == FieldKey(f) && Value(form, f) == "" then Required(f) else m[k]
  {
  }

  /** After the "required" checks, exactly the empty fields are reported, each with its own message. */
  lemma RequiredChecksAt(form: map<Field, string>, k: ErrorKey)
    ensures k in RequiredChecks(form) <==> k.FieldKey? && Value(form, k.field) == ""
    ensures k in RequiredChecks(form) ==> RequiredChecks(form)[k] == Required(k.field)
  {
    var m1 := RequireFilled(map[], form, EmployeeId);
    var m2 := RequireFilled(m1, form, FirstName);
    var m3 := RequireFilled(m2, form, LastName);
    var m4 := RequireFilled(m3, form, Email);
    var m5 := RequireFilled(m4, form, PhoneNumber);
    var m6 := RequireFilled(m5, form, Department);
    var m7 := RequireFilled(m6, form, DateOfJoining);
    RequireFilledAt(map[], form, EmployeeId, k);
    RequireFilledAt(m1, form, FirstName, k);
    RequireFilledAt(m2, form, LastName, k);
    RequireFilledAt(m3, form, Email, k);
    RequireFilledAt(m4, form, PhoneNumber, k);
    RequireFilledAt(m5, form, Department, k);
    RequireFilledAt(m6, form, DateOfJoining, k);
    RequireFilledAt(m7, form, Role, k);
    if k.FieldKey? {
      match k.field
      case EmployeeId =>
      case FirstName =>
      case LastName =>
      case Email =>
      case PhoneNumber =>
      case Department =>
      case DateOfJoining =>
      case Role =>
    }
  }

  /** The phone-length check applied to the map `m`. */
  ghost function PhoneCheck(m: map<ErrorKey, Message>, form: map<Field, string>): map<ErrorKey, Message>
  {
    var phone := Value(form, PhoneNumber);
    if phone != "" && |phone| != 10 then m[FieldKey(PhoneNumber) := PhoneLength] else m
  }

  /** The e-mail pattern check applied to the map `m`. */
  ghost function EmailCheck(m: map<ErrorKey, Message>, form: map<Field, string>): map<ErrorKey, Message>
  {
    var email := Value(form, Email);
    if email != "" && !EmailMatches(email) then m[FieldKey(Email) := EmailInvalid] else m
  }

  /** The future-date check applied to the map `m`. */
  ghost function DateCheck(m: map<ErrorKey, Message>, form: map<Field, string>, today: int): map<ErrorKey, Message>
  {
    var date := Value(form, DateOfJoining);
    if date != "" && IsFuture(date, today) then m[FieldKey(DateOfJoining) := FutureDate] else m
  }

  /** The phone, e-mail and date checks applied in turn to the map `m`. */
  ghost function FormatChecks(m: map<ErrorKey, Message>, form: map<Field, string>, today: int): map<ErrorKey, Message>
  {
    DateCheck(EmailCheck(PhoneCheck(m, form), form), form, today)
  }

  /** Membership and value of one key of the specification map. */
  lemma ValidationErrorsAt(form: map<Field, string>, today: int, k: ErrorKey)
    ensures k in ValidationErrors(form, today) <==> k.FieldKey? && FieldError(form, k.field, today).Some?
    ensures k in ValidationErrors(form, today) ==> ValidationErrors(form, today)[k] == FieldError(form, k.field, today).value
  {
    AllFieldsListed();
  }

  /** The phone, e-mail or date check rejects the filled-in value of `f`. */
  predicate FormatRejects(form: map<Field, string>, f: Field, today: int)
  {
    f in {PhoneNumber, Email, DateOfJoining} && Value(form, f) != "" && FieldError(form, f, today).Some?
  }

  /** Membership and value of one key after the format checks. */
  lemma FormatChecksAt(m: map<ErrorKey, Message>, form: map<Field, string>, today: int, k: ErrorKey)
    ensures k in FormatChecks(m, form, today) <==> k in m || (k.FieldKey? && FormatRejects(form, k.field, today))
    ensures k in FormatChecks(m, form, today) ==>
      FormatChecks(m, form, today)[k] ==
        if k.FieldKey? && FormatRejects(form, k.field, today) then FieldError(form, k.field, today).value else m[k]
  {
    var m1 := PhoneCheck(m, form);
    var m2 := EmailCheck(m1, form);
    assert FormatChecks(m, form, today) == DateCheck(m2, form, today);
    assert k in m1 <==> k in m || (k == FieldKey(PhoneNumber) && FormatRejects(form, PhoneNumber, today));
    assert k in m2 <==> k in m1 || (k == FieldKey(Email) && FormatRejects(form, Email, today));
  }

  /** On each key, the rules applied in turn agree with the per-field verdict. */
  lemma RulesInTurnAt(form: map<Field, string>, today: int, k: ErrorKey)
    ensures k in FormatChecks(RequiredChecks(form), form, today) <==> k in ValidationErrors(form, today)
    ensures k in ValidationErrors(form, today) ==>
      FormatChecks(RequiredChecks(form), form, today)[k] == ValidationErrors(form, today)[k]
  {
    RequiredChecksAt(form, k);
    FormatChecksAt(RequiredChecks(form), form, today, k);
    ValidationErrorsAt(form, today, k);
  }

  /** Two maps that agree on every key are equal. */
  lemma MapsAgree(m: map<ErrorKey, Message>, r: map<ErrorKey, Message>)
    requires forall k :: k in m <==> k in r
    requires forall k :: k in r ==> m[k] == r[k]
    ensures m == r
  {
    assert m.Keys == r.Keys;
  }

  /** Applying the rules one after another gives each field the verdict it gets when judged alone. */
  lemma RulesInTurn(form: map<Field, string>, today: int)
    ensures FormatChecks(RequiredChecks(form), form, today) == ValidationErrors(form, today)
  {
    forall k
      ensures k in FormatChecks(RequiredChecks(form), form, today) <==> k in ValidationErrors(form, today)
      ensures k in ValidationErrors(form, today) ==>
        FormatChecks(RequiredChecks(form), form, today)[k] == ValidationErrors(form, today)[k]
    {
      RulesInTurnAt(form, today, k);
    }
    MapsAgree(FormatChecks(RequiredChecks(form), form, today), ValidationErrors(form, today));
  }

  /** Every field is filled in. */
  predicate AllFilled(form: map<Field, string>)
  {
    forall f :: f in AllFields ==> Value(form, f) != ""
  }

  /** A field passes when it is filled in and, for the phone, e-mail and date fields, well formed. */
  lemma FieldPassesIff(form: map<Field, string>, f: Field, today: int)
    ensures FieldError(form, f, today).None? <==>
      && Value(form, f) != ""
      && (f == PhoneNumber ==> |Value(form, f)| == 10)
      && (f == Email ==> EmailMatches(Value(form, f)))
      && (f == DateOfJoining ==> !IsFuture(Value(form, f), today))
  {
  }

  /** Validation passes exactly when all four rules hold. */
  lemma ValidationPassesIff(form: map<Field, string>, today: int)
    ensures ValidationErrors(form, today) == map[] <==>
      && AllFilled(form)
      && |Value(form, PhoneNumber)| == 10
      && EmailMatches(Value(form, Email))
      && !IsFuture(Value(form, DateOfJoining), today)
  {
    AllFieldsListed();
    var r := ValidationErrors(form, today);
    forall f
      ensures FieldKey(f) !in r <==> FieldError(form, f, today).None?
      ensures FieldError(form, f, today).None? <==>
        && Value(form, f) != ""
        && (f == PhoneNumber ==> |Value(form, f)| == 10)
        && (f == Email ==> EmailMatches(Value(form, f)))
        && (f == DateOfJoining ==> !IsFuture(Value(form, f), today))
    {
      ValidationErrorsAt(form, today, FieldKey(f));
      FieldPassesIff(form, f, today);
    }
    if r != map[] {
      var k :| k in r;
      ValidationErrorsAt(form, today, k);
    }
  }

  /** A form that passes validation, with a phone value the change handler let in, sends ten digits. */
  lemma SubmittedPhoneHasTenDigits(form: map<Field, string>, today: int)
    requires ValidationErrors(form, today) == map[]
    requires IsPhoneInput(Value(form, PhoneNumber))
    ensures |Value(form, PhoneNumber)| == 10
    ensures forall i :: 0 <= i < 10 ==> IsAsciiDigit(Value(form, PhoneNumber)[i])
  {
    ValidationPassesIff(form, today);
  }

  /** A filled-in phone number that is not ten characters long is reported as such. */
  lemma PhoneLengthReported(form: map<Field, string>, today: int)
    requires Value(form, PhoneNumber) != "" && |Value(form, PhoneNumber)| != 10
    ensures FieldKey(PhoneNumber) in ValidationErrors(form, today)
    ensures ValidationErrors(form, today)[FieldKey(PhoneNumber)] == PhoneLength
  {
    assert FieldError(form, PhoneNumber, today) == Some(PhoneLength);
  }

  /** Each field's verdict depends on that field alone: no rule overrides another field's verdict. */
  lemma FieldsJudgedAlone(form: map<Field, string>, form': map<Field, string>, f: Field, today: int)
    requires Value(form, f) == Value(form', f)
    ensures FieldKey(f) in ValidationErrors(form, today) <==> FieldKey(f) in ValidationErrors(form', today)
    ensures FieldKey(f) in ValidationErrors(form, today) ==>
      ValidationErrors(form, today)[FieldKey(f)] == ValidationErrors(form', today)[FieldKey(f)]
  {
    AllFieldsListed();
    assert FieldError(form, f, today) == FieldError(form', f, today);
  }

  /** A server's error payload, each of its message strings kept as it came. */
  function ServerMessages(data: map<string, string>): (r: map<ErrorKey, Message>)
    ensures r.Keys == set name | name in data :: KeyOf(name)
    ensures forall name :: name in data ==> MessageText(r[KeyOf(name)]) == data[name]
  {
    map name | name in data :: KeyOf(name) := ServerText(data[name])
  }

  /** The outcome of the create request. */
  datatype CreateOutcome =
    | Responded(status: int)                           // the request resolved with this (2xx) status
    | Rejected(payload: Option<map<string, string>>)   // the server answered with an error status (and maybe a message map)
    | NoResponse                                          // the request got no answer at all

  /** The eight "required" checks of validation, in field order. */
  method RequireAll(form: map<Field, string>) returns (formErrors: map<ErrorKey, Message>)
    ensures formErrors == RequiredChecks(form)
    ensures forall k :: k in formErrors <==> k.FieldKey? && Value(form, k.field) == ""
    ensures forall k :: k in formErrors ==> formErrors[k] == Required(k.field)
  {
    formErrors := map[];
    ghost var before := formErrors;
    if Value(form, EmployeeId) == "" { formErrors := formErrors[FieldKey(EmployeeId) := Required(EmployeeId)]; }
    assert formErrors == RequireFilled(before, form, EmployeeId);
    before := formErrors;
    if Value(form, FirstName) == "" { formErrors := formErrors[FieldKey(FirstName) := Required(FirstName)]; }
    assert formErrors == RequireFilled(before, form, FirstName);
    before := formErrors;
    if Value(form, LastName) == "" { formErrors := formErrors[FieldKey(LastName) := Required(LastName)]; }
    assert formErrors == RequireFilled(before, form, LastName);
    before := formErrors;
    if Value(form, Email) == "" { formErrors := formErrors[FieldKey(Email) := Required(Email)]; }
    assert formErrors == RequireFilled(before, form, Email);
    before := formErrors;
    if Value(form, PhoneNumber) == "" { formErrors := formErrors[FieldKey(PhoneNumber) := Required(PhoneNumber)]; }
    assert formErrors == RequireFilled(before, form, PhoneNumber);
    before := formErrors;
    if Value(form, Department) == "" { formErrors := formErrors[FieldKey(Department) := Required(Department)]; }
    assert formErrors == RequireFilled(before, form, Department);
    before := formErrors;
    if Value(form, DateOfJoining) == "" { formErrors := formErrors[FieldKey(DateOfJoining) := Required(DateOfJoining)]; }
    assert formErrors == RequireFilled(before, form, DateOfJoining);
    before := formErrors;
    if Value(form, Role) == "" { formErrors := formErrors[FieldKey(Role) := Required(Role)]; }
    assert formErrors == RequireFilled(before, form, Role);
    forall k
      ensures k in formErrors <==> k.FieldKey? && Value(form, k.field) == ""
      ensures k in formErrors ==> formErrors[k] == Required(k.field)
    {
      RequiredChecksAt(form, k);
    }
  }

  // ---------------------------------------------------------------------
  // The form component

  class IntakeForm {
    var formData: map<Field, string>
    var errors: map<ErrorKey, Message>
    var successMessage: string
    var loading: bool

    /** The form holds exactly the eight fields, and the phone field only ever holds 0 to 10 digits. */
    predicate Valid()
      reads this
    {
      formData.Keys == AllFields && IsPhoneInput(formData[PhoneNumber])
    }

    /** Every field empty, no errors, no success message. */
    predicate IsCleared()
      reads this
    {
      formData == EmptyForm() && errors == map[] && successMessage == ""
    }

    /** The submit button is disabled while a request is in flight or while some error is shown. */
    predicate SubmitDisabled()
      reads this
      ensures SubmitDisabled() <==>
        loading || exists k :: k in errors && errors[k] != NoError && errors[k] != ServerText("")
    {
      loading || exists k :: k in errors && MessageText(errors[k]) != ""
    }

    constructor ()
      ensures Valid() && IsCleared() && !loading
    {
      formData := EmptyForm();
      errors := map[];
      successMessage := "";
      loading := false;
    }

    /** The `onChange` handler shared by the eight inputs. */
    method HandleChange(name: Field, value: string)
      requires Valid()
      modifies this
      ensures Valid()
      ensures successMessage == old(successMessage) && loading == old(loading)
      ensures name == PhoneNumber && IsPhoneInput(value) ==>
        && formData == old(formData)[PhoneNumber := value]
        && errors == if |value| == 10 then old(errors)[FieldKey(PhoneNumber) := NoError] else old(errors)
      ensures name == PhoneNumber && !IsPhoneInput(value) ==>
        formData == old(formData) && errors == old(errors)[FieldKey(PhoneNumber) := PhoneDigitsOnly]
      ensures name != PhoneNumber ==>
        formData == old(formData)[name := value] && errors == old(errors)[FieldKey(name) := NoError]
    {
      if name == PhoneNumber {
        if IsPhoneInput(value) {
          formData := formData[name := value];
          if |value| == 10 {
            errors := errors[FieldKey(PhoneNumber) := NoError];
          }
        } else {
          errors := errors[FieldKey(PhoneNumber) := PhoneDigitsOnly];
        }
      } else {
        formData := formData[name := value];
        errors := errors[FieldKey(name) := NoError];
      }
    }

    /** The Reset button, and the reset the timer runs after a successful create. */
    method HandleReset()
      requires Valid()
      modifies this
      ensures Valid() && IsCleared() && loading == old(loading)
      ensures !loading ==> !SubmitDisabled()
    {
      formData := EmptyForm();
      errors := map[];
      successMessage := "";
    }

    /** Validation, filling the error map one rule at a time. */
    method ValidateForm(today: int) returns (formErrors: map<ErrorKey, Message>)
      ensures formErrors == ValidationErrors(formData, today)
    {
      formErrors := RequireAll(formData);

      var phone := Value(formData, PhoneNumber);
      if phone != "" && |phone| != 10 {
        formErrors := formErrors[FieldKey(PhoneNumber) := PhoneLength];
      }
      var email := Value(formData, Email);
      if email != "" && !EmailMatches(email) {
        formErrors := formErrors[FieldKey(Email) := EmailInvalid];
      }
      var date := Value(formData, DateOfJoining);
      if date != "" && IsFuture(date, today) {
        formErrors := formErrors[FieldKey(DateOfJoining) := FutureDate];
      }
      RulesInTurn(formData, today);
    }

    /**
     * The submit handler up to its network request: validate, and either
     * show the errors and stop, or return the request body to send.
     */
    method Submit(today: int) returns (request: Option<map<Field, string>>)
      requires Valid()
      modifies this
      ensures Valid() && formData == old(formData) && successMessage == old(successMessage)
      ensures ValidationErrors(old(formData), today) != map[] ==>
        && request == None
        && errors == ValidationErrors(old(formData), today)
        && !loading
        && SubmitDisabled()
      ensures ValidationErrors(old(formData), today) == map[] ==>
        request == Some(formData) && errors == old(errors) && loading && SubmitDisabled()
      ensures request.Some? ==> |request.value[PhoneNumber]| == 10 && IsPhoneInput(request.value[PhoneNumber])
    {
      loading := true;
      var formErrors := ValidateForm(today);
      if |formErrors| > 0 {
        errors := formErrors;
        loading := false;
        var k :| k in formErrors;
        assert MessageText(errors[k]) != "";
        return None;
      }
      SubmittedPhoneHasTenDigits(formData, today);
      request := Some(formData);
    }

    /** The submit handler after its network request settles. */
    method CompleteSubmit(outcome: CreateOutcome)
      requires Valid()
      requires outcome.Responded? ==> 200 <= outcome.status < 300
      modifies this
      ensures Valid()
      ensures formData == old(formData) && !loading
      ensures outcome.Responded? ==>
        && errors == old(errors)
        && successMessage == if outcome.status == 201 then CreatedMessage() else old(successMessage)
      ensures outcome.Rejected? ==>
        && successMessage == old(successMessage)
        && errors == match outcome.payload
                     case Some(data) => ServerMessages(data)
                     case None => map[MessageKey := ServerError]
      ensures outcome.NoResponse? ==>
        successMessage == old(successMessage) && errors == map[MessageKey := Unexpected]
      ensures outcome.NoResponse? || (outcome.Rejected? && outcome.payload.None?) ==> SubmitDisabled()
    {
      match outcome {
        case Responded(status) =>
          if status == 201 {
            successMessage := CreatedMessage();
          }
        case Rejected(payload) =>
          errors := if payload.Some? then ServerMessages(payload.value) else map[MessageKey := ServerError];
          assert payload.None? ==> MessageText(errors[MessageKey]) != "";
        case NoResponse =>
          errors := map[MessageKey := Unexpected];
          assert MessageText(errors[MessageKey]) != "";
      }
      loading := false;
    }
  }
}
