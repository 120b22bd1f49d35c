/** Optional values and the failure outcome of the data service. */
module Outcomes {

  /** A value that may be absent: a `find` that found nothing, a storage key never written. */
  datatype Option<+T> = None | Some(value: T)

  /** The one error the data service raises: the connectivity guard refusing an offline call. */
  datatype Error = ConnectivityError(message: string)

  /** The result of a guarded data-service call: the value, or the error it was rejected with. */
  datatype Result<+T> = Success(value: T) | Failure(error: Error)

  /** The message the connectivity guard throws with. */
  const OfflineMessage: string :=
    "You are currently offline. Please check your internet connection and try again."
}
