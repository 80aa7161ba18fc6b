/** The employees screen: the form dialog and the delete-confirmation
    dialog, driven by the grid's actions and by the outcome of the store call
    each handler awaits; successful changes trigger a reload of the list. */
module EmployeesScreen {
  import opened Common
  import opened Requests
  import opened EmployeeSlice
  import DepartmentSlice
  import EmployeeForm
  import EntityLists
  import Numbers

  /** The request a form submission issues */
  datatype SaveRequest =
    | CreateRequest(values: EmployeeForm.Submission)
    | UpdateRequest(id: string, values: EmployeeForm.Submission)

  /** The department choices handed to the form: `{id: Number(dept.id), name: dept.name}` */
  function DepartmentOptions(ds: seq<DepartmentSlice.Department>): (r: seq<EmployeeForm.DepartmentOption>)
    ensures |r| == |ds|
    ensures forall i :: 0 <= i < |ds| ==> r[i].id == Numbers.ToNumber(ds[i].id) && r[i].name == ds[i].name
  {
    if |ds| == 0 then []
    else [EmployeeForm.DepartmentOption(Numbers.ToNumber(ds[0].id), ds[0].name)] + DepartmentOptions(ds[1..])
  }

  /** Choosing a department whose id `Number` reads as the integer n submits
      department id n: the option carries n, the select holds its text, and
      submit parses it back. */
  lemma SelectedDepartmentRoundTrip(ds: seq<DepartmentSlice.Department>, i: nat, n: int)
    requires i < |ds| && Numbers.ToNumber(ds[i].id) == Some(n)
    ensures Numbers.ParseInt(EmployeeForm.OptionValue(DepartmentOptions(ds)[i].id)) == Some(n)
  {
    var options := DepartmentOptions(ds);
    var option := options[i];
    assert option.id == Some(n);
    assert EmployeeForm.OptionValue(option.id) == Numbers.IntToString(n);
    Numbers.ParseIntOfIntToString(n);
  }

  /** A department whose id `Number` reads as NaN is offered as NaN: its
      option's select text is "NaN" and submitting it sends NaN as the
      department id. */
  lemma NonNumericDepartmentSubmitsNaN(d: DepartmentSlice.Department)
    requires Numbers.ToNumber(d.id) == None
    ensures EmployeeForm.OptionValue(Numbers.ToNumber(d.id)) == "NaN"
    ensures Numbers.ParseInt(EmployeeForm.OptionValue(Numbers.ToNumber(d.id))) == None
  {
    Numbers.ParseIntOfNaN();
  }

  class EmployeesScreen {
    const employees: EmployeeStore
    const departments: DepartmentSlice.DepartmentStore
    var formOpen: bool
    var deleteModalOpen: bool
    var selectedEmployee: Option<Employee>
    var employeeToDelete: Option<Employee>

    constructor (employees: EmployeeStore, departments: DepartmentSlice.DepartmentStore)
      ensures this.employees == employees && this.departments == departments
      ensures !formOpen && !deleteModalOpen && selectedEmployee == None && employeeToDelete == None
    {
      this.employees := employees;
      this.departments := departments;
      formOpen := false;
      deleteModalOpen := false;
      selectedEmployee := None;
      employeeToDelete := None;
    }

    /** The form's `initialData`: `selectedEmployee || undefined` */
    function FormData(): Option<EmployeeForm.InitialData>
      reads this
    {
      if selectedEmployee.Some? then Some(EmployeeForm.FromEmployee(selectedEmployee.value)) else None
    }

    /** The form's `departments`, built from the department store */
    function FormDepartments(): seq<EmployeeForm.DepartmentOption>
      reads this, departments
    {
      DepartmentOptions(departments.departments)
    }

    /** The mount effect: both lists are loaded */
    method Mount(employeesResponse: Response<seq<Employee>>, departmentsResponse: Response<seq<DepartmentSlice.Department>>)
      modifies employees, departments
      ensures !employees.loading && !departments.loading
      ensures employeesResponse.Ok? ==> employees.employees == employeesResponse.data
      ensures !employeesResponse.Ok? ==> employees.employees == old(employees.employees)
      ensures departmentsResponse.Ok? ==> departments.departments == departmentsResponse.data
      ensures !departmentsResponse.Ok? ==> departments.departments == old(departments.departments)
      ensures departmentsResponse.Ok? ==> FormDepartments() == DepartmentOptions(departmentsResponse.data)
      ensures employeesResponse.Ok? ==> employees.error == None
      ensures employeesResponse.SuccessFalse? ==> employees.error == Some(SuccessFalseReason)
      ensures employeesResponse.Threw? && employeesResponse.thrown.ErrorObject? ==>
                employees.error == Some(ThrownText(employeesResponse.thrown.message))
      ensures employeesResponse.Threw? && employeesResponse.thrown.OtherValue? ==>
                employees.error == Some(DefaultMessage(FetchEmployees))
      ensures departmentsResponse.Ok? ==> departments.error == None
      ensures departmentsResponse.SuccessFalse? ==> departments.error == Some(SuccessFalseReason)
      ensures departmentsResponse.Threw? && departmentsResponse.thrown.ErrorObject? ==>
                departments.error == Some(departmentsResponse.thrown.message)
      ensures departmentsResponse.Threw? && departmentsResponse.thrown.OtherValue? ==>
                departments.error == Some(DepartmentSlice.DefaultMessage(DepartmentSlice.FetchDepartments))
    {
      var _ := employees.Load(employeesResponse);
      var _ := departments.Load(departmentsResponse);
    }

    /** `handleCreate`: an empty form in create mode */
    method HandleCreate()
      modifies this
      ensures formOpen && selectedEmployee == None && FormData() == None
      ensures deleteModalOpen == old(deleteModalOpen) && employeeToDelete == old(employeeToDelete)
    {
      selectedEmployee := None;
      formOpen := true;
    }

    /** `handleEdit(e)`: the form opens on the row's record; submitting it
        unchanged sends the record's own department id. */
    method HandleEdit(e: Employee)
      modifies this
      ensures formOpen && selectedEmployee == Some(e)
      ensures FormData() == Some(EmployeeForm.FromEmployee(e))
      ensures EmployeeForm.Submit(EmployeeForm.InitialValues(FormData())).departmentId == Some(e.departmentId)
      ensures deleteModalOpen == old(deleteModalOpen) && employeeToDelete == old(employeeToDelete)
    {
      selectedEmployee := Some(e);
      formOpen := true;
      EmployeeForm.SubmitInitialRoundTrip(e);
    }

    /** The form's `onClose`: only the dialog closes, the selection stays */
    method HandleCloseForm()
      modifies this
      ensures !formOpen
      ensures selectedEmployee == old(selectedEmployee)
      ensures deleteModalOpen == old(deleteModalOpen) && employeeToDelete == old(employeeToDelete)
    {
      formOpen := false;
    }

    /** `handleDelete(e)`: the confirmation opens for the row's record */
    method HandleDelete(e: Employee)
      modifies this
      ensures deleteModalOpen && employeeToDelete == Some(e)
      ensures formOpen == old(formOpen) && selectedEmployee == old(selectedEmployee)
    {
      employeeToDelete := Some(e);
      deleteModalOpen := true;
    }

    /** `handleFormSubmit(values)`: update the selected record or create one.
        Success closes the form (the selection is kept) and starts a reload
        of the list; failure changes nothing on the screen. */
    method HandleFormSubmit(values: EmployeeForm.Submission, response: Response<Employee>)
      returns (request: SaveRequest)
      modifies this, employees
      ensures old(selectedEmployee).Some? ==> request == UpdateRequest(old(selectedEmployee).value.id, values)
      ensures old(selectedEmployee).None? ==> request == CreateRequest(values)
      ensures selectedEmployee == old(selectedEmployee)
      ensures deleteModalOpen == old(deleteModalOpen) && employeeToDelete == old(employeeToDelete)
      ensures response.Ok? ==>
                && !formOpen
                && employees.loading && employees.error == None
                && employees.employees == (if request.UpdateRequest?
                                           then EntityLists.Replaced(old(employees.employees), EmployeeId, response.data)
                                           else old(employees.employees) + [response.data])
      ensures !response.Ok? ==>
                && formOpen == old(formOpen)
                && !employees.loading
                && employees.employees == old(employees.employees)
      ensures response.SuccessFalse? ==> employees.error == Some(SuccessFalseReason)
      ensures response.Threw? && response.thrown.ErrorObject? ==>
                employees.error == Some(ThrownText(response.thrown.message))
      ensures response.Threw? && response.thrown.OtherValue? ==>
                employees.error == Some(DefaultMessage(if request.UpdateRequest? then UpdateEmployee else CreateEmployee))
    {
      var result: ThunkResult<Employee>;
      if selectedEmployee.Some? {
        request := UpdateRequest(selectedEmployee.value.id, values);
        result := employees.Edit(response);
      } else {
        request := CreateRequest(values);
        result := employees.Add(response);
      }
      if result.Fulfilled? {
        formOpen := false;
        employees.OnPending();
      }
    }

    /** `handleConfirmDelete`: nothing without a target; otherwise the delete
        is issued, and success closes the dialog, clears the target and starts
        a reload, while failure leaves the screen as it was. */
    method HandleConfirmDelete<T>(response: Response<T>) returns (request: Option<string>)
      modifies this, employees
      ensures formOpen == old(formOpen) && selectedEmployee == old(selectedEmployee)
      ensures old(employeeToDelete).None? ==>
                && request == None
                && deleteModalOpen == old(deleteModalOpen) && employeeToDelete == None
                && unchanged(employees)
      ensures old(employeeToDelete).Some? ==>
                var target := old(employeeToDelete).value;
                && request == Some(target.id)
                && (!response.Threw? ==>
                      && !deleteModalOpen && employeeToDelete == None
                      && employees.loading && employees.error == None
                      && employees.employees == EntityLists.Without(old(employees.employees), EmployeeId, target.id))
                && (response.Threw? ==>
                      && deleteModalOpen == old(deleteModalOpen) && employeeToDelete == old(employeeToDelete)
                      && !employees.loading
                      && employees.employees == old(employees.employees)
                      && employees.error == Some(if response.thrown.ErrorObject? then ThrownText(response.thrown.message)
                                                 else DefaultMessage(DeleteEmployee)))
    {
      if employeeToDelete.None? {
        return None;
      }
      var target := employeeToDelete.value;
      request := Some(target.id);
      var result := employees.Remove(target.id, response);
      if result.Fulfilled? {
        deleteModalOpen := false;
        employeeToDelete := None;
        employees.OnPending();
      }
    }

    /** `handleCancelDelete` */
    method HandleCancelDelete()
      modifies this
      ensures !deleteModalOpen && employeeToDelete == None
      ensures formOpen == old(formOpen) && selectedEmployee == old(selectedEmployee)
    {
      deleteModalOpen := false;
      employeeToDelete := None;
    }
  }
}
