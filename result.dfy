/** The operation result type (Application/Models/Result.cs).

    `Result` carries a success flag and the error texts. Its generic subclass
    `Result<T>` cannot be constructed: both of its constructors throw, so
    every factory that builds one yields `Thrown(NotImplemented)` here. */
module ResultModel {
  import opened Wrappers
  import opened Text

  datatype Result = Result(succeeded: bool, errors: seq<string>)
  {
    /** `ErrorMessage`: the errors joined with ", ". It is empty exactly when
        there is no error text to show: no error, or a single empty one. */
    function ErrorMessage(): (message: string)
      ensures message == "" <==> errors == [] || errors == [""]
    {
      JoinEmptyIff(", ", errors);
      assert |errors| == 1 ==> errors == [errors[0]];
      Join(", ", errors)
    }
  }

  /** What a `Result<T>` would hold, had it a working constructor. */
  datatype TypedResult<T> = TypedResult(result: Result, data: Option<T>)

  /** The parameterless internal constructor. */
  function Empty(): (r: Result)
    ensures !r.succeeded && r.errors == [] && r.ErrorMessage() == ""
  {
    Result(false, [])
  }

  /** `Success()`, and `SuccessAsync()` once awaited. */
  function Success(): (r: Result)
    ensures r.succeeded && r.errors == [] && r.ErrorMessage() == ""
  {
    Result(true, [])
  }

  /** `Failure(params errors)`, and `FailureAsync(params errors)` once awaited.
      A null array (`Failure(null)`) fails in the constructor's `errors.ToArray()`. */
  function Failure(errors: Option<seq<string>>): (r: Outcome<Result>)
    ensures errors.None? ==> r == Thrown(ArgumentNull("source"))
    ensures errors.Some? ==> r.Ok? && !r.value.succeeded && r.value.errors == errors.value
  {
    match errors
    case None => Thrown(ArgumentNull("source"))
    case Some(es) => Ok(Result(false, es))
  }


  /** The message is as long as all the errors plus a ", " between each two,
      so every error text appears in it. */
  lemma ErrorMessageLength(errors: seq<string>)
    requires |errors| > 0
    ensures |Failure(Some(errors)).value.ErrorMessage()| == TotalLength(errors) + 2 * (|errors| - 1)
  {
    JoinLength(", ", errors);
  }

  /** The message of a single error is that error. */
  lemma SingleErrorMessage(error: string)
    ensures Failure(Some([error])).value.ErrorMessage() == error
  {
  }

  /** `new Result<T>(dto)`: the public constructor throws. */
  function TypedFromDto<T>(dto: T): (r: Outcome<TypedResult<T>>)
    ensures r == Thrown(NotImplemented)
  {
    Thrown(NotImplemented)
  }

  /** `Result<T>.SuccessAsync(data)`: builds through the private constructor, which throws. */
  function TypedSuccessAsync<T>(data: T): (r: Outcome<TypedResult<T>>)
    ensures r == Thrown(NotImplemented)
  {
    PrivateConstructor<T>()
  }

  /** `Result<T>.Failure(params errors)` and `FailureAsync(params errors)`:
      the object initialiser runs after the private constructor, which throws. */
  function TypedFailure<T>(errors: seq<string>): (r: Outcome<TypedResult<T>>)
    ensures r == Thrown(NotImplemented)
  {
    match PrivateConstructor<T>()
    case Thrown(x) => Thrown(x)
    case Ok(t) => Ok(TypedResult(Result(false, errors), t.data))
  }

  /** The private parameterless `Result<T>` constructor. */
  function PrivateConstructor<T>(): (r: Outcome<TypedResult<T>>)
    ensures r.Thrown?
  {
    Thrown(NotImplemented)
  }

  /** `Result<T>.Failure(string error)`: a plain, unsuccessful `Result` with
      that one error; it does not throw. */
  function TypedFailureOfOne(error: string): (r: Result)
    ensures !r.succeeded && r.errors == [error] && r.ErrorMessage() == error
  {
    Result(false, [error])
  }
}
