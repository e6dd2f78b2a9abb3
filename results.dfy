/** Option and Kotlin's Result, as the app's repository and view-model use them. */
module Results {

  datatype Option<+T> = None | Some(value: T)

  /** An exception raised by a data-access call; Kotlin's `Throwable.message` may be null. */
  datatype Thrown = Thrown(message: Option<string>)

  /** `kotlin.Result`: a value, or the failure whose (nullable) message the screens inspect. */
  datatype Result<+T> = Success(value: T) | Failure(message: Option<string>)

  /** `result.map { }`: keeps success or failure and the failure's message, drops the value. */
  function Discard<T>(r: Result<T>): (u: Result<()>)
    ensures u.Success? <==> r.Success?
    ensures u.Failure? ==> u.message == r.message
  {
    match r
    case Success(_) => Success(())
    case Failure(m) => Failure(m)
  }
}
