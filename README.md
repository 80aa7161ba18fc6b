# Employee directory: stores, forms and screens

This project models the client-side core of an employee-directory web
application. Administrators use it to list, create, edit and delete
employees and departments. The model covers four parts:

- **Entity stores.** The employee store and the department store each hold a
  list of records, a `loading` flag and an `error`. Their asynchronous
  requests (fetch, create, update, delete) map an API outcome to a fulfilled
  payload or a rejection reason (`Requests`). The reducers then rewrite the
  list: replace the whole list, append, overwrite the first record with the
  same id, or filter the id out (`EntityLists`). The employee store falls back
  from the rejection payload to the error message to a fixed text. The
  department store stores the payload as it is.
- **Notification store.** One snackbar alert with `open`, `message` and
  `severity`. Each `show*` call replaces the previous alert (last write wins).
  Closing keeps the message and severity.
- **Forms.** The department and employee validation schemas are ordered lists
  of rules, and a field reports the message of the first rule it breaks
  (`FormRules`). The forms then define:
  - the initial values taken from the record being edited;
  - the `departmentId` conversion between number and select text, which uses
    JavaScript's `toString`, `parseInt(…, 10)` and `Number(…)` (`Numbers`);
  - the rule that enables Save (not loading, valid, changed);
  - the phone field's key filter.
- **Screens.** The departments and employees pages are modelled as state
  machines over their dialog state. Each handler awaits the store request and
  then changes the dialogs, the stores and the notifications as the page does.

The stores and screens are Dafny classes whose methods update their fields.
Validation, conversions and list rewrites are functions, and lemmas relate
them. Every API call is an input to the method that awaits it: a `Response`
is a success payload, a `success: false` body or a thrown value. The e-mail
format test and the current date are also inputs.

Two behaviours of the code are worth noting:

- A failed employee save or delete only logs to the console. The employees
  screen reads neither the store's `error` nor the notification store.
- The delete requests ignore the response body. A `success: false` body still
  counts as a successful delete, and only a thrown error rejects.

Two edge cases of the code are also stated:

- A department with an empty id opens the form in create mode, but the
  screen saves it with an update (`DepartmentsScreen.DepartmentsScreen.HandleEdit`).
- Department ids are strings. An id that `Number` reads as NaN (for example
  "abc" or "12a") is offered to the employee form as `NaN`, and choosing it
  submits NaN as the department id
  (`EmployeesScreen.NonNumericDepartmentSubmitsNaN`). The model's `Number`
  also reads hexadecimal, exponent and fractional ids as NaN, where
  JavaScript gives 16 for "0x10", 1000 for "1e3" and 1.5 for "1.5" (which
  `parseInt` then submits as 1).
- The departments screen's error effect runs again after every render while
  the store error is truthy, because the notification hook returns new
  functions on each call (`src/hooks/useAlertRedux.ts:6-17`). After a failed
  load, closing the alert and then opening the form shows the error again.
  After a failed save, the next render replaces the "Failed to … department"
  alert with the store's error. The handlers' contracts describe the state
  right after each handler; a caller applies `ReportStoreError` after a
  handler to get the next render's alert, as
  `DepartmentsScreen.LoadErrorScenario` does.

## Model

| member | source | states |
|---|---|---|
| Numbers.NatToString | src/features/employees/EmployeeForm.tsx:103 | the decimal numeral is non-empty and all digits, with no leading zero past one digit |
| Numbers.IntToString | src/features/employees/EmployeeForm.tsx:103 | `toString` of an integer is non-empty and starts with `-` exactly for negatives |
| Numbers.DigitsValueOfNatToString | src/features/employees/EmployeeForm.tsx:103 | reading the digits of the numeral of n gives back n |
| Numbers.ParseIntOfIntToString | src/features/employees/EmployeeForm.tsx:103-110 | `parseInt(n.toString(), 10)` is n for every integer n |
| Numbers.ToNumberOfNatToString | src/features/employees/Employees.tsx:210-213 | `Number` of the numeral of n is n |
| Numbers.ParseIntOfNaN | src/features/employees/EmployeeForm.tsx:106-111 | `parseInt("NaN", 10)` is NaN |
| EntityLists.FindIndex | src/features/employees/employeeSlice.ts:186-188 | gives -1 exactly when no record has the id, otherwise the first record with it |
| EntityLists.Replaced | src/features/employees/employeeSlice.ts:184-192 | replacing the first record with the payload's id keeps the length |
| EntityLists.OverwriteFirstMatch | src/features/employees/employeeSlice.ts:186-191 | the index lookup then write agrees with the replace definition, and an unknown id leaves the list alone |
| EntityLists.ReplacedKeepsKeys | src/features/employees/employeeSlice.ts:184-192 | an update never changes the list of ids |
| EntityLists.ReplacedKeepsUnique | src/features/employees/employeeSlice.ts:184-192 | an update keeps ids unique |
| EntityLists.Without | src/features/employees/employeeSlice.ts:207-209 | the filtered list is no longer, holds no record with the id, and holds only records of the original |
| EntityLists.WithoutConcat | src/features/employees/employeeSlice.ts:207-209 | filtering distributes over concatenation |
| EntityLists.WithoutNoMatch | src/features/employees/employeeSlice.ts:207-209 | deleting an absent id leaves the list as it was |
| EntityLists.WithoutCounts | src/features/employees/employeeSlice.ts:207-209 | every record keeps its multiplicity unless it has the deleted id, and those drop to zero |
| EntityLists.WithoutKeepsUnique | src/features/employees/employeeSlice.ts:207-209 | deleting keeps ids unique |
| EntityLists.AppendKeepsUnique | src/features/employees/employeeSlice.ts:168-171 | appending a record with a new id keeps ids unique |
| Requests.DeleteIgnoresBody | src/features/employees/employeeSlice.ts:113-120 | a `success: false` delete body settles the same as a success body |
| EmployeeSlice.DefaultMessage | src/features/employees/employeeSlice.ts:156-217 | every request has a non-empty fallback error text |
| EmployeeSlice.RejectionText | src/features/employees/employeeSlice.ts:156-162 | the stored error is the truthy payload, else the truthy error message, else the fallback, and is never empty |
| EmployeeSlice.ThunkRejectionText | src/features/employees/employeeSlice.ts:23-34 | a request rejected with a value stores that value when truthy, and the toolkit's "Rejected" otherwise |
| EmployeeSlice.EmployeeStore.constructor | src/features/employees/employeeSlice.ts:130-134 | the store starts with no employees, not loading, no error |
| EmployeeSlice.EmployeeStore.OnPending | src/features/employees/employeeSlice.ts:148-151 | pending sets loading, clears the error and keeps the list |
| EmployeeSlice.EmployeeStore.OnFetchFulfilled | src/features/employees/employeeSlice.ts:152-155 | the list becomes the payload and loading stops |
| EmployeeSlice.EmployeeStore.OnCreateFulfilled | src/features/employees/employeeSlice.ts:168-171 | the payload is appended after the unchanged list |
| EmployeeSlice.EmployeeStore.OnUpdateFulfilled | src/features/employees/employeeSlice.ts:184-192 | the first record with the payload's id is overwritten, others are kept |
| EmployeeSlice.EmployeeStore.OnDeleteFulfilled | src/features/employees/employeeSlice.ts:205-210 | every record with the id is removed |
| EmployeeSlice.EmployeeStore.OnRejected | src/features/employees/employeeSlice.ts:156-162 | loading stops, the list is kept, and the error is the rejection text |
| EmployeeSlice.EmployeeStore.ClearError | src/features/employees/employeeSlice.ts:141-143 | only the error is cleared |
| EmployeeSlice.EmployeeStore.Reject | src/features/employees/employeeSlice.ts:156-162 | a value rejection stores the reason, or the toolkit's "Rejected" for an empty reason |
| EmployeeSlice.EmployeeStore.Load | src/features/employees/employeeSlice.ts:11-34 | a success body replaces the list and clears the error; on failure the list is kept and the error is "API returned success: false" for `success: false`, a thrown error's message (or "Rejected" when that message is empty), or "Failed to fetch employees" for any other thrown value |
| EmployeeSlice.EmployeeStore.Add | src/features/employees/employeeSlice.ts:37-78 | a success body appends the created record; on failure the list is kept and the error is the `success: false` text, the thrown error's message (or "Rejected" when empty), or "Failed to create employee" |
| EmployeeSlice.EmployeeStore.Edit | src/features/employees/employeeSlice.ts:81-108 | a success body replaces the record with the same id; on failure the list is kept and the error is the `success: false` text, the thrown error's message (or "Rejected" when empty), or "Failed to update employee" |
| EmployeeSlice.EmployeeStore.Remove | src/features/employees/employeeSlice.ts:111-127 | unless the call throws, the delete resolves with its own id and records with it are removed; a throw keeps the list and stores the error's message (or "Rejected" when empty), or "Failed to delete employee" |
| DepartmentSlice.DefaultMessage | src/features/departments/departmentSlice.ts:6-115 | every request has a non-empty fallback error text |
| DepartmentSlice.DepartmentStore.constructor | src/features/departments/departmentSlice.ts:117-121 | the store starts with no departments, not loading, no error |
| DepartmentSlice.DepartmentStore.OnPending | src/features/departments/departmentSlice.ts:134-137 | pending sets loading, clears the error and keeps the list |
| DepartmentSlice.DepartmentStore.OnFetchFulfilled | src/features/departments/departmentSlice.ts:138-141 | the list becomes the payload and loading stops |
| DepartmentSlice.DepartmentStore.OnCreateFulfilled | src/features/departments/departmentSlice.ts:166-169 | the payload is appended after the unchanged list |
| DepartmentSlice.DepartmentStore.OnUpdateFulfilled | src/features/departments/departmentSlice.ts:179-187 | the first record with the payload's id is overwritten, others are kept |
| DepartmentSlice.DepartmentStore.OnDeleteFulfilled | src/features/departments/departmentSlice.ts:151-156 | every record with the id is removed |
| DepartmentSlice.DepartmentStore.OnRejected | src/features/departments/departmentSlice.ts:142-145 | loading stops, the list is kept, and the error is the payload as given |
| DepartmentSlice.DepartmentStore.ClearError | src/features/departments/departmentSlice.ts:127-129 | only the error is cleared |
| DepartmentSlice.DepartmentStore.Load | src/features/departments/departmentSlice.ts:6-29 | a success body replaces the list; on failure the list is kept and the error is "API returned success: false", the thrown error's message as it is, or "Failed to fetch departments" |
| DepartmentSlice.DepartmentStore.Add | src/features/departments/departmentSlice.ts:32-61 | a success body appends the created record; on failure the list is kept and the error is the `success: false` text, the thrown message as it is, or "Failed to create department" |
| DepartmentSlice.DepartmentStore.Edit | src/features/departments/departmentSlice.ts:64-96 | a success body replaces the record with the same id; on failure the list is kept and the error is the `success: false` text, the thrown message as it is, or "Failed to update department" |
| DepartmentSlice.DepartmentStore.Remove | src/features/departments/departmentSlice.ts:99-115 | unless the call throws, the delete resolves with its own id and records with it are removed; a throw keeps the list and stores the thrown message as it is, or "Failed to delete department" |
| AlertSlice.AlertStore.constructor | src/store/alertSlice.ts:10-14 | the alert starts closed, empty, with info severity |
| AlertSlice.AlertStore.ShowAlert | src/store/alertSlice.ts:20-24 | the alert opens with the message and the given severity, info when none is given |
| AlertSlice.AlertStore.ShowSuccess | src/store/alertSlice.ts:25-29 | the alert opens with the message and success severity |
| AlertSlice.AlertStore.ShowError | src/store/alertSlice.ts:30-34 | the alert opens with the message and error severity |
| AlertSlice.AlertStore.ShowWarning | src/store/alertSlice.ts:35-39 | the alert opens with the message and warning severity |
| AlertSlice.AlertStore.ShowInfo | src/store/alertSlice.ts:40-44 | the alert opens with the message and info severity |
| AlertSlice.AlertStore.CloseAlert | src/store/alertSlice.ts:45-47 | closing keeps the message and severity |
| AlertSlice.Show | src/store/alertSlice.ts:20-44 | every show action opens the alert with its message and its severity (info when `showAlert` gets none) |
| AlertSlice.LastWriteWins | src/store/alertSlice.ts:20-44 | after any two show actions only the second one's message and severity are shown |
| AlertSlice.CloseTwice | src/store/alertSlice.ts:45-47 | closing twice is the same as closing once |
| FormRules.ParseIsoDate | src/features/employees/EmployeeForm.tsx:63-65 | a date value read from a date input has ten characters, a month 1-12 and a day 1-31 |
| FormRules.IsoDateRoundTrip | src/features/employees/EmployeeForm.tsx:63-65 | the `YYYY-MM-DD` text of a date with a four-digit year, month 1-12 and day 1-31 reads back as that year, month and day |
| FormRules.IsoDateCanonical | src/features/employees/EmployeeForm.tsx:63-65 | every accepted date string is exactly the `YYYY-MM-DD` text of the date read from it |
| Numbers.FixedDigitsValue | src/features/employees/EmployeeForm.tsx:63-65 | a number below 10^w reads back from its zero-padded w-digit numeral |
| Numbers.FixedDigitsOfValue | src/features/employees/EmployeeForm.tsx:63-65 | every run of w digits is the zero-padded numeral of its value, which is below 10^w |
| FormRules.DigitRunIff | src/features/employees/EmployeeForm.tsx:57-59 | the digit pattern accepts exactly the strings of `low` to `high` ASCII digits |
| FormRules.FirstError | src/features/employees/EmployeeForm.tsx:45-80 | a field has no error exactly when it passes every rule, otherwise its error is the first broken rule's message |
| FormRules.ThreeRules | src/features/employees/EmployeeForm.tsx:46-53 | a three-rule field is error-free exactly when it passes all three |
| FormRules.TwoRules | src/features/employees/EmployeeForm.tsx:54-56 | a two-rule field is error-free exactly when it passes both |
| FormRules.EmptyReportsRequired | src/features/employees/EmployeeForm.tsx:45-80 | an empty value reports the required message of a schema field that starts with required |
| DepartmentForm.ValidIff | src/features/departments/DepartmentForm.tsx:31-39 | the form is valid exactly when the name has 2 to 100 characters and the description 1 to 500 |
| DepartmentForm.SaveEnabledIff | src/features/departments/DepartmentForm.tsx:144 | Save is enabled exactly when not loading, valid and changed from the initial values |
| DepartmentForm.BlankFormInvalid | src/features/departments/DepartmentForm.tsx:50-53 | a create form starts empty and reports both fields as required |
| DepartmentForm.EditStartsFromRecord | src/features/departments/DepartmentForm.tsx:48-53 | an edit form starts from the record's name and description and is in edit mode when the id is non-empty |
| EmployeeForm.PhoneValidIff | src/features/employees/EmployeeForm.tsx:57-59 | a phone is accepted exactly when it has 10 to 15 ASCII digits |
| EmployeeForm.GenderValidIff | src/features/employees/EmployeeForm.tsx:60-62 | a gender is accepted exactly when it is Male or Female |
| EmployeeForm.DateValidIff | src/features/employees/EmployeeForm.tsx:63-65 | a date field is accepted exactly when it is a date not after today |
| EmployeeForm.LengthRangeIff | src/features/employees/EmployeeForm.tsx:46-75 | a names, job title or address field is accepted exactly when non-empty and in its length range |
| EmployeeForm.EmailValidIff | src/features/employees/EmployeeForm.tsx:54-56 | an e-mail is accepted exactly when non-empty and of e-mail form |
| EmployeeForm.ValidIff | src/features/employees/EmployeeForm.tsx:45-80 | the form is valid exactly when all eleven field conditions hold |
| EmployeeForm.SubmitInitialRoundTrip | src/features/employees/EmployeeForm.tsx:92-111 | submitting an unchanged edit form sends the record's own department id and field values |
| EmployeeForm.SaveEnabledIff | src/features/employees/EmployeeForm.tsx:396 | Save is enabled exactly when not loading, changed, and every field condition holds |
| EmployeeForm.BlankFormNeedsInput | src/features/employees/EmployeeForm.tsx:92-104 | a create form with Save enabled was changed and has all eleven fields non-empty |
| EmployeeForm.EmptyBreaksRequired | src/features/employees/EmployeeForm.tsx:45-80 | an empty value reports the required message of any field whose first rule is required |
| EmployeeForm.BlankFormErrors | src/features/employees/EmployeeForm.tsx:92-104 | a create form starts with each of the eleven fields reporting its own required message |
| EmployeeForm.KeyAccepted | src/features/employees/EmployeeForm.tsx:224-228 | the phone field keeps a key press exactly when the key contains a digit |
| EmployeeForm.SingleKeyAccepted | src/features/employees/EmployeeForm.tsx:224-228 | a one-character key passes exactly when it is a digit |
| DepartmentsScreen.DepartmentsScreen.constructor | src/features/departments/Departments.tsx:24-35 | both dialogs start closed with no target |
| DepartmentsScreen.DepartmentsScreen.Mount | src/features/departments/Departments.tsx:37-39 | mounting loads the departments; a success body replaces the list and clears the error, and a failure keeps the list and stores "API returned success: false", the thrown error's message as it is, or "Failed to fetch departments" |
| DepartmentsScreen.DepartmentsScreen.ReportStoreError | src/features/departments/Departments.tsx:41-45 | a truthy store error is shown as an error alert, otherwise the alert is unchanged; the effect runs after every render while the error is truthy, so a caller applies it after any handler |
| DepartmentsScreen.DepartmentsScreen.HandleCreate | src/features/departments/Departments.tsx:47-50 | the form opens in create mode with no initial data |
| DepartmentsScreen.DepartmentsScreen.HandleEdit | src/features/departments/Departments.tsx:52-58 | the form opens on the first listed department with the id, in edit mode exactly when the id is non-empty; an unknown id changes nothing |
| DepartmentsScreen.DepartmentsScreen.HandleFormSubmit | src/features/departments/Departments.tsx:60-91 | edit mode issues an update and create mode a create; success closes the form, clears the store error and shows the success text; failure keeps the form and the list, shows the failure text, and stores the `success: false` text, the thrown message as it is, or the request's "Failed to create/update department" |
| DepartmentsScreen.DepartmentsScreen.HandleCloseFormModal | src/features/departments/Departments.tsx:93-96 | the form closes and the edit target is cleared |
| DepartmentsScreen.DepartmentsScreen.HandleDelete | src/features/departments/Departments.tsx:98-101 | the confirmation opens for that id and name |
| DepartmentsScreen.DepartmentsScreen.HandleConfirmDelete | src/features/departments/Departments.tsx:103-117 | no target does nothing; otherwise the delete is issued, success closes the dialog, clears the store error and alerts, failure keeps it, alerts the error and stores the thrown message as it is or "Failed to delete department" |
| DepartmentsScreen.DepartmentsScreen.HandleCloseDeleteModal | src/features/departments/Departments.tsx:119-122 | the confirmation closes and its target is cleared |
| EmployeesScreen.DepartmentOptions | src/features/employees/Employees.tsx:210-213 | one option per department, carrying `Number(id)` and the name |
| EmployeesScreen.SelectedDepartmentRoundTrip | src/features/employees/Employees.tsx:210-213 | choosing a department whose id `Number` reads as the integer n (for example "-3", " 7" or "007") submits department id n |
| EmployeesScreen.NonNumericDepartmentSubmitsNaN | src/features/employees/Employees.tsx:210-213 | a department whose id `Number` reads as NaN (for example "abc" or "12a") is offered with select text "NaN" and submits NaN as the department id |
| EmployeesScreen.EmployeesScreen.constructor | src/features/employees/Employees.tsx:23-30 | both dialogs start closed with nothing selected |
| EmployeesScreen.EmployeesScreen.Mount | src/features/employees/Employees.tsx:32-35 | mounting loads the employees and the departments, and the form's department options are built from the loaded departments; each store keeps its list on failure and stores the `success: false` text, the thrown message (for employees "Rejected" when that message is empty), or its "Failed to fetch …" text |
| EmployeesScreen.EmployeesScreen.HandleCreate | src/features/employees/Employees.tsx:37-40 | the form opens with no selection and no initial data |
| EmployeesScreen.EmployeesScreen.HandleEdit | src/features/employees/Employees.tsx:42-45 | the form opens on the given row, whose unchanged submission sends the row's own department id |
| EmployeesScreen.EmployeesScreen.HandleCloseForm | src/features/employees/Employees.tsx:207 | the form closes and the selection is kept |
| EmployeesScreen.EmployeesScreen.HandleDelete | src/features/employees/Employees.tsx:47-50 | the confirmation opens for that row |
| EmployeesScreen.EmployeesScreen.HandleFormSubmit | src/features/employees/Employees.tsx:156-171 | a selection issues an update, otherwise a create; success closes the form and starts a reload; failure leaves the dialogs and the list as they were, and the employee store holds the `success: false` text, the thrown message ("Rejected" when empty), or "Failed to create/update employee" |
| EmployeesScreen.EmployeesScreen.HandleConfirmDelete | src/features/employees/Employees.tsx:173-184 | no target does nothing; otherwise the delete is issued, success closes the dialog and starts a reload; a throw keeps it and stores the thrown message ("Rejected" when empty) or "Failed to delete employee" |
| EmployeesScreen.EmployeesScreen.HandleCancelDelete | src/features/employees/Employees.tsx:186-189 | the confirmation closes and its target is cleared |

## Left out

- REST calls (Amplify `get`/`post`/`put`/`del` and reading the JSON body) are not modelled. Their outcome is the `Response` parameter of the method that awaits it.
- Concurrency is not modelled. A request's pending and settled steps happen within one method call. The list reload that the employees screen starts after a change is modelled only as its pending step; its result is a later, separate store event. Out-of-order responses and responses that arrive after unmount are not modelled.
- The store wiring in `src/store/index.ts` registers only the alert reducer, so each slice is modelled as a store of its own.
- The selectors are plain reads of the store fields and need no members of their own.
- The hooks `useEmployees`, `useDepartments` and `useAlertRedux` only forward calls. The loads only dispatch the fetch, and the screens call the stores' `Load` for them. Create, update and delete dispatch and then unwrap the result: the stores' `Add`, `Edit` and `Remove` return that result. The alert hook becomes direct calls on the alert store.
- The department form's submit handler passes its values through unchanged. The screen's `HandleFormSubmit` takes those values directly.
- The validation library's e-mail pattern is the `isEmail` parameter, and "today" is the `today` parameter. The time of day and the time zone are not modelled.
- FormRules.ParseIsoDate: it accepts only `YYYY-MM-DD` with month 1-12 and day 1-31. The other formats the date parser accepts, and its rollover of days past a month's end, are not modelled.
- The wording of the date type-check message is a short form of the library's default.
- Formik's conversion of an empty input to `undefined`, and the timing of its asynchronous validation, are not modelled. Save is judged from the current values.
- String lengths are counted in Unicode characters rather than UTF-16 code units. They differ only for characters outside the Basic Multilingual Plane.
- Numbers are unbounded integers. Floating-point ids, precision loss and the exponent notation that `toString` uses for very large numbers are not modelled.
- Numbers.ToNumber: it reads only optional whitespace around a signed or unsigned decimal integer (the empty string is 0). Hexadecimal, exponent, fractional and `Infinity` forms, which `Number` also accepts, give `None` (NaN) here.
- DepartmentsScreen.DepartmentsScreen.ReportStoreError: the effect re-runs after every render while the store error is truthy, because `showError` is a new function each render (`src/hooks/useAlertRedux.ts:6-17`). The model has no render step, so the handlers' contracts leave that re-run out; a caller applies `ReportStoreError` after any handler to get it.
- EmployeeSlice.EmployeeStore.Reject: the "Rejected" error message of a value rejection comes from the Redux toolkit. It is stated here as a constant, not derived from the library.
- Rendering is not modelled: dialog titles, confirmation texts, grid columns, loading-disabled buttons, the image upload component, authentication, routing and console logging.

