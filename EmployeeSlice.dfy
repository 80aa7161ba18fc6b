/** The employee store: a list of employee records with the request status
    `loading` and the last error, changed in place by one reducer case per
    request outcome. */
module EmployeeSlice {
  import opened Common
  import opened Requests
  import EntityLists

  /** The department snapshot the API embeds in an employee record */
  datatype DepartmentSummary = DepartmentSummary(
    id: int, name: string, description: string, createdAt: string, updatedAt: string)

  datatype Employee = Employee(
    id: string,
    firstName: string,
    lastName: string,
    email: string,
    phoneNumber: string,
    gender: string,
    dateOfBirth: string,
    jobTitle: string,
    imageUrl: string,
    address: string,
    dateOfEmployment: string,
    departmentId: int,
    department: Option<DepartmentSummary>,
    createdAt: string,
    updatedAt: string)

  function EmployeeId(e: Employee): string
  {
    e.id
  }

  /** The four async thunks of the store */
  datatype Op = FetchEmployees | CreateEmployee | UpdateEmployee | DeleteEmployee

  /** The reason used when a thunk catches a value that is not an `Error`,
      also the reducer's last fallback */
  function DefaultMessage(op: Op): (m: string)
    ensures m != ""
  {
    match op
    case FetchEmployees => "Failed to fetch employees"
    case CreateEmployee => "Failed to create employee"
    case UpdateEmployee => "Failed to update employee"
    case DeleteEmployee => "Failed to delete employee"
  }

  /** `(action.payload as string) || action.error.message || <default>` */
  function RejectionText(op: Op, payload: Option<string>, errorMessage: Option<string>): (r: string)
    ensures r != ""
    ensures Truthy(payload) ==> r == payload.value
    ensures !Truthy(payload) && Truthy(errorMessage) ==> r == errorMessage.value
    ensures !Truthy(payload) && !Truthy(errorMessage) ==> r == DefaultMessage(op)
  {
    OrElse(payload, OrElse(errorMessage, DefaultMessage(op)))
  }

  /** For a rejection made by a thunk, the stored error is the thunk's reason,
      or the toolkit's "Rejected" when that reason is the empty string. */
  lemma ThunkRejectionText(op: Op, reason: string)
    ensures RejectionText(op, Some(reason), Some(ValueRejectionMessage))
            == if reason != "" then reason else ValueRejectionMessage
  {
  }

  /** The error text a rejection carrying a thrown error's message ends up
      as: the message, or the toolkit's "Rejected" when it is empty */
  function ThrownText(message: string): (t: string)
    ensures t != ""
    ensures message != "" ==> t == message
  {
    if message != "" then message else ValueRejectionMessage
  }

  class EmployeeStore {
    var employees: seq<Employee>
    var loading: bool
    var error: Option<string>

    constructor ()
      ensures employees == [] && !loading && error == None
    {
      employees := [];
      loading := false;
      error := None;
    }

    /** The `pending` case, identical for all four thunks */
    method OnPending()
      modifies this
      ensures loading && error == None
      ensures employees == old(employees)
    {
      loading := true;
      error := None;
    }

    /** `fetchEmployees.fulfilled`: the fetched list replaces the old one as it is */
    method OnFetchFulfilled(payload: seq<Employee>)
      modifies this
      ensures !loading && error == old(error)
      ensures employees == payload
    {
      loading := false;
      employees := payload;
    }

    /** `createEmployee.fulfilled`: the created record is pushed at the end */
    method OnCreateFulfilled(payload: Employee)
      modifies this
      ensures !loading && error == old(error)
      ensures |employees| == |old(employees)| + 1
      ensures employees[..|old(employees)|] == old(employees) && employees[|old(employees)|] == payload
    {
      loading := false;
      employees := employees + [payload];
    }

    /** `updateEmployee.fulfilled`: the first record with the payload's id is
        overwritten at its position; without one the list is left as it is. */
    method OnUpdateFulfilled(payload: Employee)
      modifies this
      ensures !loading && error == old(error)
      ensures employees == EntityLists.Replaced(old(employees), EmployeeId, payload)
      ensures var i := EntityLists.FindIndex(old(employees), EmployeeId, payload.id);
              employees == if i == -1 then old(employees) else old(employees)[i := payload]
    {
      loading := false;
      var index := EntityLists.FindIndex(employees, EmployeeId, payload.id);
      EntityLists.OverwriteFirstMatch(employees, EmployeeId, payload);
      if index != -1 {
        employees := employees[index := payload];
      }
    }

    /** `deleteEmployee.fulfilled`: the records whose id differs are kept, in order */
    method OnDeleteFulfilled(id: string)
      modifies this
      ensures !loading && error == old(error)
      ensures employees == EntityLists.Without(old(employees), EmployeeId, id)
    {
      loading := false;
      employees := EntityLists.Without(employees, EmployeeId, id);
    }

    /** The `rejected` case of a thunk: the list is kept and a non-empty error recorded */
    method OnRejected(op: Op, payload: Option<string>, errorMessage: Option<string>)
      modifies this
      ensures !loading && employees == old(employees)
      ensures error == Some(RejectionText(op, payload, errorMessage))
    {
      loading := false;
      error := Some(RejectionText(op, payload, errorMessage));
    }

    /** `clearError` */
    method ClearError()
      modifies this
      ensures error == None
      ensures loading == old(loading) && employees == old(employees)
    {
      error := None;
    }

    /** Records a thunk's rejection as the toolkit dispatches it */
    method Reject(op: Op, reason: string)
      modifies this
      ensures !loading && employees == old(employees)
      ensures error == Some(if reason != "" then reason else ValueRejectionMessage)
    {
      ThunkRejectionText(op, reason);
      OnRejected(op, Some(reason), Some(ValueRejectionMessage));
    }

    /** `dispatch(fetchEmployees())` run to completion on the given response */
    method Load(response: Response<seq<Employee>>) returns (result: ThunkResult<seq<Employee>>)
      modifies this
      ensures result == SettleBody(response, DefaultMessage(FetchEmployees))
      ensures !loading
      ensures result.Fulfilled? ==> employees == result.payload && error == None
      ensures response.Ok? ==> employees == response.data && error == None
      ensures result.RejectedWith? ==> employees == old(employees)
      ensures result.RejectedWith? ==> error == Some(if result.reason != "" then result.reason else ValueRejectionMessage)
      ensures response.SuccessFalse? ==> employees == old(employees) && error == Some(SuccessFalseReason)
      ensures response.Threw? && response.thrown.ErrorObject? ==>
                employees == old(employees)
                && error == Some(ThrownText(response.thrown.message))
      ensures response.Threw? && response.thrown.OtherValue? ==>
                employees == old(employees) && error == Some(DefaultMessage(FetchEmployees))
    {
      OnPending();
      result := SettleBody(response, DefaultMessage(FetchEmployees));
      match result
      case Fulfilled(list) => OnFetchFulfilled(list);
      case RejectedWith(reason) => Reject(FetchEmployees, reason);
    }

    /** `dispatch(createEmployee(data)).unwrap()` run to completion on the given response */
    method Add(response: Response<Employee>) returns (result: ThunkResult<Employee>)
      modifies this
      ensures result == SettleBody(response, DefaultMessage(CreateEmployee))
      ensures !loading
      ensures result.Fulfilled? ==> employees == old(employees) + [result.payload] && error == None
      ensures response.Ok? ==> employees == old(employees) + [response.data] && error == None
      ensures result.RejectedWith? ==> employees == old(employees)
      ensures result.RejectedWith? ==> error == Some(if result.reason != "" then result.reason else ValueRejectionMessage)
      ensures response.SuccessFalse? ==> employees == old(employees) && error == Some(SuccessFalseReason)
      ensures response.Threw? && response.thrown.ErrorObject? ==>
                employees == old(employees)
                && error == Some(ThrownText(response.thrown.message))
      ensures response.Threw? && response.thrown.OtherValue? ==>
                employees == old(employees) && error == Some(DefaultMessage(CreateEmployee))
    {
      OnPending();
      result := SettleBody(response, DefaultMessage(CreateEmployee));
      match result
      case Fulfilled(e) => OnCreateFulfilled(e);
      case RejectedWith(reason) => Reject(CreateEmployee, reason);
    }

    /** `dispatch(updateEmployee(data)).unwrap()` run to completion on the given response */
    method Edit(response: Response<Employee>) returns (result: ThunkResult<Employee>)
      modifies this
      ensures result == SettleBody(response, DefaultMessage(UpdateEmployee))
      ensures !loading
      ensures result.Fulfilled? ==>
                employees == EntityLists.Replaced(old(employees), EmployeeId, result.payload) && error == None
      ensures response.Ok? ==>
                employees == EntityLists.Replaced(old(employees), EmployeeId, response.data) && error == None
      ensures result.RejectedWith? ==> employees == old(employees)
      ensures result.RejectedWith? ==> error == Some(if result.reason != "" then result.reason else ValueRejectionMessage)
      ensures response.SuccessFalse? ==> employees == old(employees) && error == Some(SuccessFalseReason)
      ensures response.Threw? && response.thrown.ErrorObject? ==>
                employees == old(employees)
                && error == Some(ThrownText(response.thrown.message))
      ensures response.Threw? && response.thrown.OtherValue? ==>
                employees == old(employees) && error == Some(DefaultMessage(UpdateEmployee))
    {
      OnPending();
      result := SettleBody(response, DefaultMessage(UpdateEmployee));
      match result
      case Fulfilled(e) => OnUpdateFulfilled(e);
      case RejectedWith(reason) => Reject(UpdateEmployee, reason);
    }

    /** `dispatch(deleteEmployee(id)).unwrap()` run to completion on the given response */
    method Remove<T>(id: string, response: Response<T>) returns (result: ThunkResult<string>)
      modifies this
      ensures result == SettleDelete(id, response, DefaultMessage(DeleteEmployee))
      ensures !loading
      ensures result.Fulfilled? ==>
                employees == EntityLists.Without(old(employees), EmployeeId, id) && error == None
      ensures !response.Threw? ==> result == Fulfilled(id)
      ensures result.RejectedWith? ==> employees == old(employees)
      ensures result.RejectedWith? ==> error == Some(if result.reason != "" then result.reason else ValueRejectionMessage)
      ensures response.Threw? && response.thrown.ErrorObject? ==>
                employees == old(employees)
                && error == Some(ThrownText(response.thrown.message))
      ensures response.Threw? && response.thrown.OtherValue? ==>
                employees == old(employees) && error == Some(DefaultMessage(DeleteEmployee))
    {
      OnPending();
      result := SettleDelete(id, response, DefaultMessage(DeleteEmployee));
      match result
      case Fulfilled(removed) => OnDeleteFulfilled(removed);
      case RejectedWith(reason) => Reject(DeleteEmployee, reason);
    }
  }

  /** A load that fails with the error "network error" records that text and keeps the list. */
  method LoadRejectedScenario(before: seq<Employee>)
  {
    var store := new EmployeeStore();
    store.OnFetchFulfilled(before);
    var result := store.Load(Threw(ErrorObject("network error")));
    assert store.error == Some("network error") && !store.loading && store.employees == before;
  }
}
