/**
 * The frontend stores' view of the API services they await: a call either
 * resolves with its data or rejects, and the store's success or error
 * handler turns the response or error into the message it records.
 */
module Api {

  /**
   * How an awaited service call settled. `message` is what `handleSuccess`
   * makes of the response, or what `handleError` makes of the error.
   */
  datatype Response<T> = Resolved(data: T, message: string) | Rejected(message: string)

  /** How an action's promise settles: it returns `null`, or it rethrows the error. */
  datatype Settled = Returned | Rethrown
}
