/** The employee create/edit form: its validation schema, the initial values
    built from the record being edited, the department-id conversion on
    submit, the Save rule and the key filter of the phone field. The clock
    ("today") and the e-mail format test are inputs. */
module EmployeeForm {
  import opened Common
  import opened Numbers
  import opened FormRules
  import EmployeeSlice

  /** Every field is a string; the department is the selected option's value */
  datatype FormValues = FormValues(
    firstName: string, lastName: string, email: string, phoneNumber: string,
    gender: string, dateOfBirth: string, jobTitle: string, imageUrl: string,
    address: string, dateOfEmployment: string, departmentId: string)

  /** The message shown under each field, if any */
  datatype FormErrors = FormErrors(
    firstName: Option<string>, lastName: Option<string>, email: Option<string>,
    phoneNumber: Option<string>, gender: Option<string>, dateOfBirth: Option<string>,
    jobTitle: Option<string>, imageUrl: Option<string>, address: Option<string>,
    dateOfEmployment: Option<string>, departmentId: Option<string>)

  /** The fields of `Partial<Employee>` the form reads */
  datatype InitialData = InitialData(
    id: Option<string>, firstName: Option<string>, lastName: Option<string>,
    email: Option<string>, phoneNumber: Option<string>, gender: Option<string>,
    dateOfBirth: Option<string>, jobTitle: Option<string>, imageUrl: Option<string>,
    address: Option<string>, dateOfEmployment: Option<string>, departmentId: Option<int>)

  /** What the form hands to its `onSubmit`: the values with the department id
      parsed to a number (`None` is NaN) */
  datatype Submission = Submission(
    firstName: string, lastName: string, email: string, phoneNumber: string,
    gender: string, dateOfBirth: string, jobTitle: string, imageUrl: string,
    address: string, dateOfEmployment: string, departmentId: Option<int>)

  /** One entry of the form's department list: `{id: number, name}` (`None` is NaN) */
  datatype DepartmentOption = DepartmentOption(id: Option<int>, name: string)

  /** The select value of an option: `department.id.toString()` */
  function OptionValue(id: Option<int>): string
  {
    if id.Some? then IntToString(id.value) else "NaN"
  }

  function FromEmployee(e: EmployeeSlice.Employee): InitialData
  {
    InitialData(Some(e.id), Some(e.firstName), Some(e.lastName), Some(e.email),
                Some(e.phoneNumber), Some(e.gender), Some(e.dateOfBirth), Some(e.jobTitle),
                Some(e.imageUrl), Some(e.address), Some(e.dateOfEmployment), Some(e.departmentId))
  }

  const FirstNameRules: seq<Rule> := [
    Required("First name is required"),
    MinLength(2, "First name must be at least 2 characters"),
    MaxLength(50, "First name must not exceed 50 characters")]

  const LastNameRules: seq<Rule> := [
    Required("Last name is required"),
    MinLength(2, "Last name must be at least 2 characters"),
    MaxLength(50, "Last name must not exceed 50 characters")]

  function EmailRules(isEmail: string -> bool): seq<Rule>
  {
    [Required("Email is required"), EmailFormat(isEmail, "Invalid email format")]
  }

  const PhoneRules: seq<Rule> := [
    Required("Phone number is required"),
    DigitRun(10, 15, "Phone number must be 10-15 digits")]

  const GenderRules: seq<Rule> := [
    Required("Gender is required"),
    OneOf(["Male", "Female"], "Please select a valid gender")]

  function DateOfBirthRules(today: Date): seq<Rule>
  {
    [Required("Date of birth is required"),
     IsDate("dateOfBirth must be a `date` type"),
     NotAfterDate(today, "Date of birth cannot be in the future")]
  }

  const JobTitleRules: seq<Rule> := [
    Required("Job title is required"),
    MinLength(2, "Job title must be at least 2 characters"),
    MaxLength(100, "Job title must not exceed 100 characters")]

  const ImageUrlRules: seq<Rule> := [Required("Profile image is required")]

  const AddressRules: seq<Rule> := [
    Required("Address is required"),
    MinLength(5, "Address must be at least 5 characters"),
    MaxLength(200, "Address must not exceed 200 characters")]

  function DateOfEmploymentRules(today: Date): seq<Rule>
  {
    [Required("Date of employment is required"),
     IsDate("dateOfEmployment must be a `date` type"),
     NotAfterDate(today, "Date of employment cannot be in the future")]
  }

  const DepartmentIdRules: seq<Rule> := [Required("Department is required")]

  /** The validation schema applied to the current values */
  function Validate(v: FormValues, today: Date, isEmail: string -> bool): FormErrors
  {
    FormErrors(
      FirstError(FirstNameRules, v.firstName),
      FirstError(LastNameRules, v.lastName),
      FirstError(EmailRules(isEmail), v.email),
      FirstError(PhoneRules, v.phoneNumber),
      FirstError(GenderRules, v.gender),
      FirstError(DateOfBirthRules(today), v.dateOfBirth),
      FirstError(JobTitleRules, v.jobTitle),
      FirstError(ImageUrlRules, v.imageUrl),
      FirstError(AddressRules, v.address),
      FirstError(DateOfEmploymentRules(today), v.dateOfEmployment),
      FirstError(DepartmentIdRules, v.departmentId))
  }

  const NoErrors: FormErrors := FormErrors(None, None, None, None, None, None, None, None, None, None, None)

  predicate IsValid(v: FormValues, today: Date, isEmail: string -> bool)
  {
    Validate(v, today, isEmail) == NoErrors
  }

  /** The field predicates the schema stands for */
  predicate PersonNameOk(s: string) { 2 <= |s| <= 50 }
  predicate JobTitleOk(s: string) { 2 <= |s| <= 100 }
  predicate AddressOk(s: string) { 5 <= |s| <= 200 }
  predicate PhoneOk(s: string) { 10 <= |s| <= 15 && AllDigits(s) }
  predicate GenderOk(s: string) { s == "Male" || s == "Female" }
  predicate DateOk(s: string, today: Date) { ParseIsoDate(s).Some? && NotAfter(ParseIsoDate(s).value, today) }

  /** The phone number has no error exactly when it is 10 to 15 ASCII digits. */
  lemma PhoneValidIff(s: string)
    ensures FirstError(PhoneRules, s).None? <==> PhoneOk(s)
  {
    TwoRules(PhoneRules[0], PhoneRules[1], s);
    DigitRunIff(s, 10, 15);
  }

  /** The gender has no error exactly when it is "Male" or "Female". */
  lemma GenderValidIff(s: string)
    ensures FirstError(GenderRules, s).None? <==> GenderOk(s)
  {
    TwoRules(GenderRules[0], GenderRules[1], s);
  }

  /** A date field has no error exactly when it is a date not after today. */
  lemma DateValidIff(s: string, today: Date, rules: seq<Rule>)
    requires rules == DateOfBirthRules(today) || rules == DateOfEmploymentRules(today)
    ensures FirstError(rules, s).None? <==> DateOk(s, today)
  {
    ThreeRules(rules[0], rules[1], rules[2], s);
  }

  /** A field with `required`, `min(low)` and `max(high)` has no error exactly
      when its length lies between the two bounds. */
  lemma LengthRangeIff(rules: seq<Rule>, s: string, low: nat, high: nat)
    requires || (rules == FirstNameRules && low == 2 && high == 50)
             || (rules == LastNameRules && low == 2 && high == 50)
             || (rules == JobTitleRules && low == 2 && high == 100)
             || (rules == AddressRules && low == 5 && high == 200)
    ensures FirstError(rules, s).None? <==> low <= |s| <= high
  {
    ThreeRules(rules[0], rules[1], rules[2], s);
  }

  lemma EmailValidIff(s: string, isEmail: string -> bool)
    ensures FirstError(EmailRules(isEmail), s).None? <==> s != "" && isEmail(s)
  {
    TwoRules(EmailRules(isEmail)[0], EmailRules(isEmail)[1], s);
  }

  /** The values are valid exactly when no field reports an error. */
  lemma NoFieldErrors(v: FormValues, today: Date, isEmail: string -> bool)
    ensures IsValid(v, today, isEmail) <==>
      && FirstError(FirstNameRules, v.firstName).None? && FirstError(LastNameRules, v.lastName).None?
      && FirstError(EmailRules(isEmail), v.email).None? && FirstError(PhoneRules, v.phoneNumber).None?
      && FirstError(GenderRules, v.gender).None? && FirstError(DateOfBirthRules(today), v.dateOfBirth).None?
      && FirstError(JobTitleRules, v.jobTitle).None? && FirstError(ImageUrlRules, v.imageUrl).None?
      && FirstError(AddressRules, v.address).None?
      && FirstError(DateOfEmploymentRules(today), v.dateOfEmployment).None?
      && FirstError(DepartmentIdRules, v.departmentId).None?
  {
  }

  /** A field whose only rule is `required` has no error exactly when it is non-empty. */
  lemma RequiredOnlyIff(rules: seq<Rule>, s: string)
    requires rules == ImageUrlRules || rules == DepartmentIdRules
    ensures FirstError(rules, s).None? <==> s != ""
  {
    assert rules == [rules[0]];
  }

  /** The schema accepts the values exactly when every field predicate holds. */
  lemma ValidIff(v: FormValues, today: Date, isEmail: string -> bool)
    ensures IsValid(v, today, isEmail) <==>
      && PersonNameOk(v.firstName) && PersonNameOk(v.lastName)
      && v.email != "" && isEmail(v.email)
      && PhoneOk(v.phoneNumber) && GenderOk(v.gender)
      && DateOk(v.dateOfBirth, today) && JobTitleOk(v.jobTitle)
      && v.imageUrl != "" && AddressOk(v.address)
      && DateOk(v.dateOfEmployment, today) && v.departmentId != ""
  {
    NoFieldErrors(v, today, isEmail);
    LengthRangeIff(FirstNameRules, v.firstName, 2, 50);
    LengthRangeIff(LastNameRules, v.lastName, 2, 50);
    EmailValidIff(v.email, isEmail);
    PhoneValidIff(v.phoneNumber);
    GenderValidIff(v.gender);
    DateValidIff(v.dateOfBirth, today, DateOfBirthRules(today));
    LengthRangeIff(JobTitleRules, v.jobTitle, 2, 100);
    RequiredOnlyIff(ImageUrlRules, v.imageUrl);
    LengthRangeIff(AddressRules, v.address, 5, 200);
    DateValidIff(v.dateOfEmployment, today, DateOfEmploymentRules(today));
    RequiredOnlyIff(DepartmentIdRules, v.departmentId);
  }

  /** The initial values: each field copied when present and truthy, else
      empty; the department id as its decimal text. */
  function InitialValues(data: Option<InitialData>): FormValues
  {
    if data.None? then FormValues("", "", "", "", "", "", "", "", "", "", "")
    else
      var d := data.value;
      FormValues(
        OrElse(d.firstName, ""), OrElse(d.lastName, ""), OrElse(d.email, ""),
        OrElse(d.phoneNumber, ""), OrElse(d.gender, ""), OrElse(d.dateOfBirth, ""),
        OrElse(d.jobTitle, ""), OrElse(d.imageUrl, ""), OrElse(d.address, ""),
        OrElse(d.dateOfEmployment, ""),
        if d.departmentId.Some? then IntToString(d.departmentId.value) else "")
  }

  /** `handleSubmit`: the values with `parseInt(departmentId, 10)` */
  function Submit(v: FormValues): Submission
  {
    Submission(v.firstName, v.lastName, v.email, v.phoneNumber, v.gender, v.dateOfBirth,
               v.jobTitle, v.imageUrl, v.address, v.dateOfEmployment, ParseInt(v.departmentId))
  }

  /** Submitting an edit form unchanged hands back the record's own fields and
      its department id: number to text to number is the identity. */
  lemma SubmitInitialRoundTrip(e: EmployeeSlice.Employee)
    ensures Submit(InitialValues(Some(FromEmployee(e)))) ==
      Submission(e.firstName, e.lastName, e.email, e.phoneNumber, e.gender, e.dateOfBirth,
                 e.jobTitle, e.imageUrl, e.address, e.dateOfEmployment, Some(e.departmentId))
  {
    ParseIntOfIntToString(e.departmentId);
  }

  /** The Save button: enabled when not saving, the values are valid and differ
      from the initial values (Formik's `dirty`). */
  predicate SaveEnabled(loading: bool, values: FormValues, initial: FormValues, today: Date, isEmail: string -> bool)
  {
    !loading && IsValid(values, today, isEmail) && values != initial
  }

  /** Save is enabled exactly when nothing is being saved, every field
      predicate holds and some field was changed. */
  lemma SaveEnabledIff(loading: bool, values: FormValues, initial: FormValues, today: Date, isEmail: string -> bool)
    ensures SaveEnabled(loading, values, initial, today, isEmail) <==>
      && !loading && values != initial
      && PersonNameOk(values.firstName) && PersonNameOk(values.lastName)
      && values.email != "" && isEmail(values.email)
      && PhoneOk(values.phoneNumber) && GenderOk(values.gender)
      && DateOk(values.dateOfBirth, today) && JobTitleOk(values.jobTitle)
      && values.imageUrl != "" && AddressOk(values.address)
      && DateOk(values.dateOfEmployment, today) && values.departmentId != ""
  {
    ValidIff(values, today, isEmail);
  }

  /** A form opened without a record starts empty and cannot be saved before
      every field is filled in. */
  lemma BlankFormNeedsInput(today: Date, isEmail: string -> bool, loading: bool, values: FormValues)
    requires SaveEnabled(loading, values, InitialValues(None), today, isEmail)
    ensures values != InitialValues(None)
    ensures && values.firstName != "" && values.lastName != "" && values.email != ""
            && values.phoneNumber != "" && values.gender != "" && values.dateOfBirth != ""
            && values.jobTitle != "" && values.imageUrl != "" && values.address != ""
            && values.dateOfEmployment != "" && values.departmentId != ""
  {
    ValidIff(values, today, isEmail);
  }

  /** An empty value breaks the leading `required` rule of a field first. */
  lemma EmptyBreaksRequired(rules: seq<Rule>)
    requires |rules| > 0 && rules[0].Required?
    ensures FirstError(rules, "") == Some(rules[0].message)
  {
    EmptyReportsRequired(rules[0].message, rules[1..]);
    assert rules == [Required(rules[0].message)] + rules[1..];
  }

  /** The blank form reports "required" on every field. */
  lemma BlankFormErrors(today: Date, isEmail: string -> bool)
    ensures Validate(InitialValues(None), today, isEmail) == FormErrors(
      Some("First name is required"), Some("Last name is required"), Some("Email is required"),
      Some("Phone number is required"), Some("Gender is required"), Some("Date of birth is required"),
      Some("Job title is required"), Some("Profile image is required"), Some("Address is required"),
      Some("Date of employment is required"), Some("Department is required"))
    ensures !IsValid(InitialValues(None), today, isEmail)
  {
    EmptyBreaksRequired(FirstNameRules);
    EmptyBreaksRequired(LastNameRules);
    EmptyBreaksRequired(EmailRules(isEmail));
    EmptyBreaksRequired(PhoneRules);
    EmptyBreaksRequired(GenderRules);
    EmptyBreaksRequired(DateOfBirthRules(today));
    EmptyBreaksRequired(JobTitleRules);
    EmptyBreaksRequired(ImageUrlRules);
    EmptyBreaksRequired(AddressRules);
    EmptyBreaksRequired(DateOfEmploymentRules(today));
    EmptyBreaksRequired(DepartmentIdRules);
  }

  /** The phone field's key filter `/[0-9]/.test(key)`: a key is let through
      when its name contains a decimal digit. */
  predicate KeyAccepted(key: string)
    ensures KeyAccepted(key) <==> exists i :: 0 <= i < |key| && IsDigit(key[i])
  {
    |key| > 0 && (IsDigit(key[0]) || KeyAccepted(key[1..]))
  }

  /** For a key that types one character, the filter accepts it exactly when it is a digit. */
  lemma SingleKeyAccepted(c: char)
    ensures KeyAccepted([c]) <==> IsDigit(c)
  {
  }
}
