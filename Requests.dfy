/** The outcome of one remote call and how the stores' async thunks turn it
    into a fulfilled value or a rejection reason. The REST call itself is not
    modelled: its outcome is an input. */
module Requests {

  /** What a `catch` block receives: an `Error` object (with its message) or any other value */
  datatype Thrown = ErrorObject(message: string) | OtherValue

  /** How a call to the API ended: a body `{success: true, data}`, a body
      `{success: false}`, or an exception raised by the call or by reading its body. */
  datatype Response<+T> = Ok(data: T) | SuccessFalse | Threw(thrown: Thrown)

  /** What a thunk resolves with: its payload, or the value given to `rejectWithValue` */
  datatype ThunkResult<+T> = Fulfilled(payload: T) | RejectedWith(reason: string)

  /** The reason the fetch, create and update thunks reject with on `{success: false}` */
  const SuccessFalseReason: string := "API returned success: false"

  /** The `error.message` the toolkit attaches to a rejection made with
      `rejectWithValue` (it serialises the string "Rejected"). */
  const ValueRejectionMessage: string := "Rejected"

  /** `error instanceof Error ? error.message : fallback` */
  function CaughtReason(thrown: Thrown, fallback: string): (r: string)
    ensures thrown.ErrorObject? ==> r == thrown.message
    ensures thrown.OtherValue? ==> r == fallback
  {
    match thrown
    case ErrorObject(m) => m
    case OtherValue => fallback
  }

  /** The fetch, create and update thunks: the body's data when `success` is
      true, the fixed reason on `success: false`, the caught reason on an exception. */
  function SettleBody<T>(response: Response<T>, fallback: string): (r: ThunkResult<T>)
    ensures r.Fulfilled? <==> response.Ok?
    ensures response.Ok? ==> r.payload == response.data
    ensures response.SuccessFalse? ==> r.reason == SuccessFalseReason
    ensures response.Threw? ==> r.reason == CaughtReason(response.thrown, fallback)
  {
    match response
    case Ok(data) => Fulfilled(data)
    case SuccessFalse => RejectedWith(SuccessFalseReason)
    case Threw(thrown) => RejectedWith(CaughtReason(thrown, fallback))
  }

  /** The delete thunks: they await the response without reading its body and
      resolve with the identifier they were given; only an exception rejects. */
  function SettleDelete<T>(id: string, response: Response<T>, fallback: string): (r: ThunkResult<string>)
    ensures r.Fulfilled? <==> !response.Threw?
    ensures r.Fulfilled? ==> r.payload == id
    ensures response.Threw? ==> r.reason == CaughtReason(response.thrown, fallback)
  {
    match response
    case Threw(thrown) => RejectedWith(CaughtReason(thrown, fallback))
    case _ => Fulfilled(id)
  }

  /** A delete ignores the body: `{success: false}` resolves exactly like `{success: true}`. */
  lemma DeleteIgnoresBody<T>(id: string, data: T, fallback: string)
    ensures SettleDelete(id, Ok(data), fallback) == SettleDelete<T>(id, SuccessFalse, fallback) == Fulfilled(id)
  {
  }
}
