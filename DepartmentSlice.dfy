/** The department store: a list of department records with the request
    status `loading` and the last error, changed in place by one reducer case
    per request outcome. Unlike the employee store its `rejected` cases store
    the rejection payload as it is, with no fallback text. */
module DepartmentSlice {
  import opened Common
  import opened Requests
  import EntityLists

  datatype Department = Department(
    id: string, name: string, description: string, createdAt: string, updatedAt: string)

  function DepartmentId(d: Department): string
  {
    d.id
  }

  /** The four async thunks of the store */
  datatype Op = FetchDepartments | CreateDepartment | UpdateDepartment | DeleteDepartment

  /** The reason a thunk rejects with when it catches a value that is not an `Error` */
  function DefaultMessage(op: Op): (m: string)
    ensures m != ""
  {
    match op
    case FetchDepartments => "Failed to fetch departments"
    case CreateDepartment => "Failed to create department"
    case UpdateDepartment => "Failed to update department"
    case DeleteDepartment => "Failed to delete department"
  }

  class DepartmentStore {
    var departments: seq<Department>
    var loading: bool
    var error: Option<string>

    constructor ()
      ensures departments == [] && !loading && error == None
    {
      departments := [];
      loading := false;
      error := None;
    }

    /** The `pending` case, identical for all four thunks */
    method OnPending()
      modifies this
      ensures loading && error == None
      ensures departments == old(departments)
    {
      loading := true;
      error := None;
    }

    /** `fetchDepartments.fulfilled`: the fetched list replaces the old one as it is */
    method OnFetchFulfilled(payload: seq<Department>)
      modifies this
      ensures !loading && error == old(error)
      ensures departments == payload
    {
      loading := false;
      departments := payload;
    }

    /** `createDepartment.fulfilled`: the created record is pushed at the end */
    method OnCreateFulfilled(payload: Department)
      modifies this
      ensures !loading && error == old(error)
      ensures |departments| == |old(departments)| + 1
      ensures departments[..|old(departments)|] == old(departments)
      ensures departments[|old(departments)|] == payload
    {
      loading := false;
      departments := departments + [payload];
    }

    /** `updateDepartment.fulfilled`: the first record with the payload's id is
        overwritten at its position; without one the list is left as it is. */
    method OnUpdateFulfilled(payload: Department)
      modifies this
      ensures !loading && error == old(error)
      ensures departments == EntityLists.Replaced(old(departments), DepartmentId, payload)
      ensures var i := EntityLists.FindIndex(old(departments), DepartmentId, payload.id);
              departments == if i == -1 then old(departments) else old(departments)[i := payload]
    {
      loading := false;
      var index := EntityLists.FindIndex(departments, DepartmentId, payload.id);
      EntityLists.OverwriteFirstMatch(departments, DepartmentId, payload);
      if index != -1 {
        departments := departments[index := payload];
      }
    }

    /** `deleteDepartment.fulfilled`: the records whose id differs are kept, in order */
    method OnDeleteFulfilled(id: string)
      modifies this
      ensures !loading && error == old(error)
      ensures departments == EntityLists.Without(old(departments), DepartmentId, id)
    {
      loading := false;
      departments := EntityLists.Without(departments, DepartmentId, id);
    }

    /** The `rejected` case of a thunk: the list is kept and the payload stored verbatim */
    method OnRejected(payload: Option<string>)
      modifies this
      ensures !loading && departments == old(departments)
      ensures error == payload
    {
      loading := false;
      error := payload;
    }

    /** `clearError` */
    method ClearError()
      modifies this
      ensures error == None
      ensures loading == old(loading) && departments == old(departments)
    {
      error := None;
    }

    /** `dispatch(fetchDepartments())` run to completion on the given response */
    method Load(response: Response<seq<Department>>) returns (result: ThunkResult<seq<Department>>)
      modifies this
      ensures result == SettleBody(response, DefaultMessage(FetchDepartments))
      ensures !loading
      ensures result.Fulfilled? ==> departments == result.payload && error == None
      ensures response.Ok? ==> departments == response.data && error == None
      ensures result.RejectedWith? ==> departments == old(departments) && error == Some(result.reason)
      ensures response.SuccessFalse? ==> departments == old(departments) && error == Some(SuccessFalseReason)
      ensures response.Threw? && response.thrown.ErrorObject? ==>
                departments == old(departments) && error == Some(response.thrown.message)
      ensures response.Threw? && response.thrown.OtherValue? ==>
                departments == old(departments) && error == Some(DefaultMessage(FetchDepartments))
    {
      OnPending();
      result := SettleBody(response, DefaultMessage(FetchDepartments));
      match result
      case Fulfilled(list) => OnFetchFulfilled(list);
      case RejectedWith(reason) => OnRejected(Some(reason));
    }

    /** `dispatch(createDepartment(data)).unwrap()` run to completion on the given response */
    method Add(response: Response<Department>) returns (result: ThunkResult<Department>)
      modifies this
      ensures result == SettleBody(response, DefaultMessage(CreateDepartment))
      ensures !loading
      ensures result.Fulfilled? ==> departments == old(departments) + [result.payload] && error == None
      ensures response.Ok? ==> departments == old(departments) + [response.data] && error == None
      ensures result.RejectedWith? ==> departments == old(departments) && error == Some(result.reason)
      ensures response.SuccessFalse? ==> departments == old(departments) && error == Some(SuccessFalseReason)
      ensures response.Threw? && response.thrown.ErrorObject? ==>
                departments == old(departments) && error == Some(response.thrown.message)
      ensures response.Threw? && response.thrown.OtherValue? ==>
                departments == old(departments) && error == Some(DefaultMessage(CreateDepartment))
    {
      OnPending();
      result := SettleBody(response, DefaultMessage(CreateDepartment));
      match result
      case Fulfilled(d) => OnCreateFulfilled(d);
      case RejectedWith(reason) => OnRejected(Some(reason));
    }

    /** `dispatch(updateDepartment(data)).unwrap()` run to completion on the given response */
    method Edit(response: Response<Department>) returns (result: ThunkResult<Department>)
      modifies this
      ensures result == SettleBody(response, DefaultMessage(UpdateDepartment))
      ensures !loading
      ensures result.Fulfilled? ==>
                departments == EntityLists.Replaced(old(departments), DepartmentId, result.payload) && error == None
      ensures response.Ok? ==>
                departments == EntityLists.Replaced(old(departments), DepartmentId, response.data) && error == None
      ensures result.RejectedWith? ==> departments == old(departments) && error == Some(result.reason)
      ensures response.SuccessFalse? ==> departments == old(departments) && error == Some(SuccessFalseReason)
      ensures response.Threw? && response.thrown.ErrorObject? ==>
                departments == old(departments) && error == Some(response.thrown.message)
      ensures response.Threw? && response.thrown.OtherValue? ==>
                departments == old(departments) && error == Some(DefaultMessage(UpdateDepartment))
    {
      OnPending();
      result := SettleBody(response, DefaultMessage(UpdateDepartment));
      match result
      case Fulfilled(d) => OnUpdateFulfilled(d);
      case RejectedWith(reason) => OnRejected(Some(reason));
    }

    /** `dispatch(deleteDepartment(id)).unwrap()` run to completion on the given response */
    method Remove<T>(id: string, response: Response<T>) returns (result: ThunkResult<string>)
      modifies this
      ensures result == SettleDelete(id, response, DefaultMessage(DeleteDepartment))
      ensures !loading
      ensures result.Fulfilled? ==>
                departments == EntityLists.Without(old(departments), DepartmentId, id) && error == None
      ensures !response.Threw? ==> result == Fulfilled(id)
      ensures result.RejectedWith? ==> departments == old(departments) && error == Some(result.reason)
      ensures response.Threw? && response.thrown.ErrorObject? ==>
                departments == old(departments) && error == Some(response.thrown.message)
      ensures response.Threw? && response.thrown.OtherValue? ==>
                departments == old(departments) && error == Some(DefaultMessage(DeleteDepartment))
    {
      OnPending();
      result := SettleDelete(id, response, DefaultMessage(DeleteDepartment));
      match result
      case Fulfilled(removed) => OnDeleteFulfilled(removed);
      case RejectedWith(reason) => OnRejected(Some(reason));
    }
  }

  /** A store holding department 1 receives the created department 2 after it. */
  method CreateScenario()
  {
    var store := new DepartmentStore();
    var eng := Department("1", "Eng", "", "", "");
    store.OnFetchFulfilled([eng]);
    var sales := Department("2", "Sales", "d", "T", "T");
    var result := store.Add(Ok(sales));
    assert store.departments == [eng, sales];
  }

  /** Deleting department 1 from [1, 2] leaves [2]. */
  method DeleteScenario()
  {
    var store := new DepartmentStore();
    var one := Department("1", "", "", "", "");
    var two := Department("2", "", "", "", "");
    store.OnFetchFulfilled([one, two]);
    var result := store.Remove("1", Ok(()));
    assert [one, two][1..] == [two];
    assert store.departments == [two];
  }

  /** A load that fails with "network error" records it and keeps the list. */
  method LoadRejectedScenario(before: seq<Department>)
  {
    var store := new DepartmentStore();
    store.OnFetchFulfilled(before);
    var result := store.Load(Threw(ErrorObject("network error")));
    assert store.error == Some("network error") && !store.loading && store.departments == before;
  }
}
