/** The department create/edit form: its validation schema, the initial
    values built from the record being edited, the edit-mode test and the
    rule that enables the Save button. */
module DepartmentForm {
  import opened Common
  import opened FormRules
  import DepartmentSlice

  datatype FormValues = FormValues(name: string, description: string)

  /** The message shown under each field, if any */
  datatype FormErrors = FormErrors(name: Option<string>, description: Option<string>)

  /** `Partial<Department>`, the optional record the form is opened with */
  datatype InitialData = InitialData(
    id: Option<string>, name: Option<string>, description: Option<string>,
    createdAt: Option<string>, updatedAt: Option<string>)

  /** A whole record as the partial record the form receives */
  function FromDepartment(d: DepartmentSlice.Department): InitialData
  {
    InitialData(Some(d.id), Some(d.name), Some(d.description), Some(d.createdAt), Some(d.updatedAt))
  }

  const NameRules: seq<Rule> := [
    Required("Department name is required"),
    MinLength(2, "Department name must be at least 2 characters"),
    MaxLength(100, "Department name must not exceed 100 characters")]

  const DescriptionRules: seq<Rule> := [
    Required("Department description is required"),
    MaxLength(500, "Description must not exceed 500 characters")]

  /** The validation schema applied to the current values */
  function Validate(v: FormValues): FormErrors
  {
    FormErrors(FirstError(NameRules, v.name), FirstError(DescriptionRules, v.description))
  }

  predicate IsValid(v: FormValues)
  {
    Validate(v) == FormErrors(None, None)
  }

  predicate NameOk(name: string)
  {
    2 <= |name| <= 100
  }

  predicate DescriptionOk(description: string)
  {
    1 <= |description| <= 500
  }

  /** The schema accepts the values exactly when the name has 2 to 100
      characters and the description 1 to 500. */
  lemma ValidIff(v: FormValues)
    ensures IsValid(v) <==> NameOk(v.name) && DescriptionOk(v.description)
  {
    ThreeRules(NameRules[0], NameRules[1], NameRules[2], v.name);
    TwoRules(DescriptionRules[0], DescriptionRules[1], v.description);
  }

  /** `Boolean(initialData?.id)` */
  predicate IsEditing(data: Option<InitialData>)
  {
    data.Some? && Truthy(data.value.id)
  }

  /** `{name: initialData?.name || "", description: initialData?.description || ""}` */
  function InitialValues(data: Option<InitialData>): FormValues
  {
    if data.None? then FormValues("", "")
    else FormValues(OrElse(data.value.name, ""), OrElse(data.value.description, ""))
  }

  /** The Save button: enabled when not saving, the values are valid and differ
      from the initial values (Formik's `dirty`). */
  predicate SaveEnabled(loading: bool, values: FormValues, initial: FormValues)
  {
    !loading && IsValid(values) && values != initial
  }

  /** Save is enabled exactly when nothing is being saved, the name and the
      description are within their limits and some field was changed. */
  lemma SaveEnabledIff(loading: bool, values: FormValues, initial: FormValues)
    ensures SaveEnabled(loading, values, initial)
            <==> !loading && NameOk(values.name) && DescriptionOk(values.description) && values != initial
  {
    ValidIff(values);
  }

  /** A form opened without a record starts empty and invalid, with the
      required-messages of both fields. */
  lemma BlankFormInvalid()
    ensures InitialValues(None) == FormValues("", "")
    ensures Validate(InitialValues(None))
            == FormErrors(Some("Department name is required"), Some("Department description is required"))
    ensures !IsValid(InitialValues(None))
  {
    EmptyReportsRequired("Department name is required", NameRules[1..]);
    assert NameRules == [NameRules[0]] + NameRules[1..];
    EmptyReportsRequired("Department description is required", DescriptionRules[1..]);
    assert DescriptionRules == [DescriptionRules[0]] + DescriptionRules[1..];
  }

  /** Editing a record starts from its name and description, in edit mode
      exactly when its id is non-empty; Save stays disabled until a field changes. */
  lemma EditStartsFromRecord(d: DepartmentSlice.Department, loading: bool)
    ensures InitialValues(Some(FromDepartment(d))) == FormValues(d.name, d.description)
    ensures IsEditing(Some(FromDepartment(d))) <==> d.id != ""
    ensures !SaveEnabled(loading, InitialValues(Some(FromDepartment(d))), InitialValues(Some(FromDepartment(d))))
  {
  }
}
