/** The departments screen: the form dialog and the delete-confirmation
    dialog, driven by the grid's actions and by the outcome of the store call
    each handler awaits. Messages go to the global notification. */
module DepartmentsScreen {
  import opened Common
  import opened Requests
  import opened DepartmentSlice
  import AlertSlice
  import DepartmentForm
  import EntityLists

  /** The row a delete was asked for */
  datatype DeleteTarget = DeleteTarget(id: string, name: string)

  /** The request a form submission issues */
  datatype SaveRequest =
    | CreateRequest(name: string, description: string)
    | UpdateRequest(id: string, name: string, description: string)

  function CreatedMessage(name: string): string
  {
    "Department \"" + name + "\" created successfully"
  }

  function UpdatedMessage(name: string): string
  {
    "Department \"" + name + "\" updated successfully"
  }

  function DeletedMessage(name: string): string
  {
    "Department \"" + name + "\" deleted successfully"
  }

  class DepartmentsScreen {
    const store: DepartmentStore
    const alert: AlertSlice.AlertStore
    var deleteModalOpen: bool
    var departmentToDelete: Option<DeleteTarget>
    var formModalOpen: bool
    var editingDepartment: Option<Department>

    constructor (store: DepartmentStore, alert: AlertSlice.AlertStore)
      ensures this.store == store && this.alert == alert
      ensures !deleteModalOpen && departmentToDelete == None
      ensures !formModalOpen && editingDepartment == None
    {
      this.store := store;
      this.alert := alert;
      deleteModalOpen := false;
      departmentToDelete := None;
      formModalOpen := false;
      editingDepartment := None;
    }

    /** The form's `initialData`: `editingDepartment || undefined` */
    function FormData(): Option<DepartmentForm.InitialData>
      reads this
    {
      if editingDepartment.Some? then Some(DepartmentForm.FromDepartment(editingDepartment.value)) else None
    }

    /** The mount effect: the department list is loaded */
    method Mount(response: Response<seq<Department>>)
      modifies store
      ensures !store.loading
      ensures response.Ok? ==> store.departments == response.data && store.error == None
      ensures !response.Ok? ==> store.departments == old(store.departments)
      ensures response.Ok? ==> store.error == None
      ensures response.SuccessFalse? ==> store.error == Some(SuccessFalseReason)
      ensures response.Threw? && response.thrown.ErrorObject? ==> store.error == Some(response.thrown.message)
      ensures response.Threw? && response.thrown.OtherValue? ==> store.error == Some(DefaultMessage(FetchDepartments))
    {
      var _ := store.Load(response);
    }

    /** The effect on the store's `error`: a truthy error is shown as an error notification */
    method ReportStoreError()
      modifies alert
      ensures Truthy(store.error) ==>
                alert.open && alert.message == store.error.value && alert.severity == AlertSlice.Error
      ensures !Truthy(store.error) ==>
                alert.open == old(alert.open) && alert.message == old(alert.message)
                && alert.severity == old(alert.severity)
    {
      if Truthy(store.error) {
        alert.ShowError(store.error.value);
      }
    }

    /** `handleCreate`: an empty form in create mode */
    method HandleCreate()
      modifies this
      ensures formModalOpen && editingDepartment == None && FormData() == None
      ensures deleteModalOpen == old(deleteModalOpen) && departmentToDelete == old(departmentToDelete)
    {
      editingDepartment := None;
      formModalOpen := true;
    }

    /** `handleEdit(id)`: the form opens on the first listed department with that id;
        an id that is not listed changes nothing. The form shows edit mode
        exactly when the id is non-empty, although the screen then always
        saves with an update. */
    method HandleEdit(id: string)
      modifies this
      ensures var i := EntityLists.FindIndex(store.departments, DepartmentId, id);
              if i == -1 then
                formModalOpen == old(formModalOpen) && editingDepartment == old(editingDepartment)
              else
                && formModalOpen && editingDepartment == Some(store.departments[i])
                && FormData() == Some(DepartmentForm.FromDepartment(store.departments[i]))
                && (DepartmentForm.IsEditing(FormData()) <==> id != "")
      ensures deleteModalOpen == old(deleteModalOpen) && departmentToDelete == old(departmentToDelete)
    {
      var i := EntityLists.FindIndex(store.departments, DepartmentId, id);
      if i != -1 {
        editingDepartment := Some(store.departments[i]);
        formModalOpen := true;
      }
    }

    /** `handleFormSubmit(values)`: update when a department is being edited,
        create otherwise. Success closes the form and clears the edit target;
        failure keeps both and shows an error. */
    method HandleFormSubmit(values: DepartmentForm.FormValues, response: Response<Department>)
      returns (request: SaveRequest)
      modifies this, store, alert
      ensures old(editingDepartment).Some? ==>
                request == UpdateRequest(old(editingDepartment).value.id, values.name, values.description)
      ensures old(editingDepartment).None? ==> request == CreateRequest(values.name, values.description)
      ensures !store.loading
      ensures response.Ok? ==>
                && !formModalOpen && editingDepartment == None
                && alert.open && alert.severity == AlertSlice.Success
                && alert.message == (if request.UpdateRequest? then UpdatedMessage(values.name) else CreatedMessage(values.name))
                && store.departments == (if request.UpdateRequest?
                                         then EntityLists.Replaced(old(store.departments), DepartmentId, response.data)
                                         else old(store.departments) + [response.data])
      ensures !response.Ok? ==>
                && formModalOpen == old(formModalOpen) && editingDepartment == old(editingDepartment)
                && alert.open && alert.severity == AlertSlice.Error
                && alert.message == (if request.UpdateRequest? then "Failed to update department" else "Failed to create department")
                && store.departments == old(store.departments)
      ensures response.Ok? ==> store.error == None
      ensures response.SuccessFalse? ==> store.error == Some(SuccessFalseReason)
      ensures response.Threw? && response.thrown.ErrorObject? ==> store.error == Some(response.thrown.message)
      ensures response.Threw? && response.thrown.OtherValue? ==>
                store.error == Some(DefaultMessage(if request.UpdateRequest? then UpdateDepartment else CreateDepartment))
      ensures deleteModalOpen == old(deleteModalOpen) && departmentToDelete == old(departmentToDelete)
    {
      var result: ThunkResult<Department>;
      if editingDepartment.Some? {
        request := UpdateRequest(editingDepartment.value.id, values.name, values.description);
        result := store.Edit(response);
      } else {
        request := CreateRequest(values.name, values.description);
        result := store.Add(response);
      }
      if result.Fulfilled? {
        alert.ShowSuccess(if request.UpdateRequest? then UpdatedMessage(values.name) else CreatedMessage(values.name));
        formModalOpen := false;
        editingDepartment := None;
      } else {
        alert.ShowError(if request.UpdateRequest? then "Failed to update department" else "Failed to create department");
      }
    }

    /** `handleCloseFormModal` */
    method HandleCloseFormModal()
      modifies this
      ensures !formModalOpen && editingDepartment == None
      ensures deleteModalOpen == old(deleteModalOpen) && departmentToDelete == old(departmentToDelete)
    {
      formModalOpen := false;
      editingDepartment := None;
    }

    /** `handleDelete(id, name)`: the confirmation opens for that row */
    method HandleDelete(id: string, name: string)
      modifies this
      ensures deleteModalOpen && departmentToDelete == Some(DeleteTarget(id, name))
      ensures formModalOpen == old(formModalOpen) && editingDepartment == old(editingDepartment)
    {
      departmentToDelete := Some(DeleteTarget(id, name));
      deleteModalOpen := true;
    }

    /** `handleConfirmDelete`: nothing without a target; otherwise the delete
        is issued, success closes the dialog and clears the target, failure
        keeps both and shows an error. */
    method HandleConfirmDelete<T>(response: Response<T>) returns (request: Option<string>)
      modifies this, store, alert
      ensures formModalOpen == old(formModalOpen) && editingDepartment == old(editingDepartment)
      ensures old(departmentToDelete).None? ==>
                && request == None
                && deleteModalOpen == old(deleteModalOpen) && departmentToDelete == None
                && unchanged(store) && unchanged(alert)
      ensures old(departmentToDelete).Some? ==>
                var target := old(departmentToDelete).value;
                && request == Some(target.id)
                && !store.loading
                && (!response.Threw? ==>
                      && !deleteModalOpen && departmentToDelete == None
                      && alert.open && alert.severity == AlertSlice.Success
                      && alert.message == DeletedMessage(target.name)
                      && store.error == None
                      && store.departments == EntityLists.Without(old(store.departments), DepartmentId, target.id))
                && (response.Threw? ==>
                      && deleteModalOpen == old(deleteModalOpen) && departmentToDelete == old(departmentToDelete)
                      && alert.open && alert.severity == AlertSlice.Error
                      && alert.message == "Failed to delete department"
                      && store.departments == old(store.departments)
                      && store.error == Some(if response.thrown.ErrorObject? then response.thrown.message
                                             else DefaultMessage(DeleteDepartment)))
    {
      if departmentToDelete.None? {
        return None;
      }
      var target := departmentToDelete.value;
      request := Some(target.id);
      var result := store.Remove(target.id, response);
      if result.Fulfilled? {
        alert.ShowSuccess(DeletedMessage(target.name));
        deleteModalOpen := false;
        departmentToDelete := None;
      } else {
        alert.ShowError("Failed to delete department");
      }
    }

    /** `handleCloseDeleteModal` */
    method HandleCloseDeleteModal()
      modifies this
      ensures !deleteModalOpen && departmentToDelete == None
      ensures formModalOpen == old(formModalOpen) && editingDepartment == old(editingDepartment)
    {
      deleteModalOpen := false;
      departmentToDelete := None;
    }
  }

  /** A load that fails with "network error" is shown as an error
      notification by the error effect; once the user closes it, the next
      render (here the one after opening the create form) runs the effect again
      and shows the same error while the store still holds it. */
  method LoadErrorScenario()
  {
    var store := new DepartmentStore();
    var alert := new AlertSlice.AlertStore();
    var screen := new DepartmentsScreen(store, alert);
    screen.Mount(Threw(ErrorObject("network error")));
    screen.ReportStoreError();
    assert alert.open && alert.message == "network error" && alert.severity == AlertSlice.Error;
    alert.CloseAlert();
    screen.HandleCreate();
    assert !alert.open;
    screen.ReportStoreError();
    assert alert.open && alert.message == "network error";
  }
}
