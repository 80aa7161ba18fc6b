/** The global notification: one message with a severity and a visibility
    flag. Every show action overwrites whatever was there (last write wins);
    closing only hides it. */
module AlertSlice {
  import opened Common

  /** MUI's `AlertColor` */
  datatype Severity = Success | Info | Warning | Error

  /** The five show actions, each with the message it carries */
  datatype ShowAction =
    | ShowAlertAction(message: string, severity: Option<Severity>)
    | ShowSuccessAction(message: string)
    | ShowErrorAction(message: string)
    | ShowWarningAction(message: string)
    | ShowInfoAction(message: string)

  /** The severity a show action displays */
  function ShownSeverity(a: ShowAction): Severity
  {
    match a
    case ShowAlertAction(_, sev) => sev.GetOr(Info)
    case ShowSuccessAction(_) => Success
    case ShowErrorAction(_) => Error
    case ShowWarningAction(_) => Warning
    case ShowInfoAction(_) => Info
  }

  class AlertStore {
    var open: bool
    var message: string
    var severity: Severity

    /** The reducer's `initialState` */
    constructor ()
      ensures !open && message == "" && severity == Info
    {
      open := false;
      message := "";
      severity := Info;
    }

    /** `showAlert({message, severity})`: the severity defaults to info */
    method ShowAlert(msg: string, sev: Option<Severity>)
      modifies this
      ensures open && message == msg
      ensures severity == if sev.Some? then sev.value else Info
    {
      open := true;
      message := msg;
      severity := sev.GetOr(Info);
    }

    method ShowSuccess(msg: string)
      modifies this
      ensures open && message == msg && severity == Success
    {
      open := true;
      message := msg;
      severity := Success;
    }

    method ShowError(msg: string)
      modifies this
      ensures open && message == msg && severity == Error
    {
      open := true;
      message := msg;
      severity := Error;
    }

    method ShowWarning(msg: string)
      modifies this
      ensures open && message == msg && severity == Warning
    {
      open := true;
      message := msg;
      severity := Warning;
    }

    method ShowInfo(msg: string)
      modifies this
      ensures open && message == msg && severity == Info
    {
      open := true;
      message := msg;
      severity := Info;
    }

    /** `closeAlert`: hides the notification and keeps its text and severity */
    method CloseAlert()
      modifies this
      ensures !open
      ensures message == old(message) && severity == old(severity)
    {
      open := false;
    }
  }

  /** Dispatching a show action to the store */
  method Show(alert: AlertStore, a: ShowAction)
    modifies alert
    ensures alert.open && alert.message == a.message && alert.severity == ShownSeverity(a)
  {
    match a
    case ShowAlertAction(m, sev) => alert.ShowAlert(m, sev);
    case ShowSuccessAction(m) => alert.ShowSuccess(m);
    case ShowErrorAction(m) => alert.ShowError(m);
    case ShowWarningAction(m) => alert.ShowWarning(m);
    case ShowInfoAction(m) => alert.ShowInfo(m);
  }

  /** Two show actions in a row: only the second is left, whatever either was. */
  method LastWriteWins(alert: AlertStore, first: ShowAction, second: ShowAction)
    modifies alert
    ensures alert.open && alert.message == second.message && alert.severity == ShownSeverity(second)
  {
    Show(alert, first);
    Show(alert, second);
  }

  /** Closing twice leaves the same state as closing once. */
  method CloseTwice(alert: AlertStore)
    modifies alert
    ensures !alert.open
    ensures alert.message == old(alert.message) && alert.severity == old(alert.severity)
  {
    alert.CloseAlert();
    alert.CloseAlert();
  }
}
