/** Values shared by every part of the model: an optional value (the source's
    nullable references), the exceptions the core throws or lets through,
    and the outcome of a call that either returns or throws. */
module Wrappers {

  /** A nullable reference or value: `None` stands for C#'s `null`. */
  datatype Option<+T> = None | Some(value: T) {
    function GetOr(default: T): T {
      match this
      case Some(v) => v
      case None => default
    }
  }

  /** A .NET type, identified by its name (`TestRequest`, `DomainEventNotification<Created>`). */
  type TypeTag = string

  /** The exceptions the modelled code raises itself, plus `Raised` for one
      raised by code outside the model (a handler, the database, a cast). */
  datatype Exception =
    | NoServiceRegistered(serviceType: TypeTag, responseType: TypeTag)
    | ArgumentNull(paramName: string)
    | Argument(message: string)
    | NotImplemented
    | InvalidCast
    | NullReference
    | Overflow
    /** The `InvalidOperationException` of `Expression.Convert` when no
        conversion exists from the first type to the second. */
    | NoCoercionOperator(fromType: TypeTag, toType: TypeTag)
    | Raised(message: string)

  /** What an awaited call yields: a value, or an exception that propagates. */
  datatype Outcome<+T> = Ok(value: T) | Thrown(exception: Exception)
}
