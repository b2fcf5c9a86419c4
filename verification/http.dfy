/** The response shapes the controllers and middlewares send. */
module Http {

  /** One entry of express-validator's `errors.array()`: the field path and its message. */
  datatype FieldError = FieldError(path: string, msg: string)

  /**
   * A response: `Done` carries a success payload, `Rejected` a `{ message }`
   * body, and `Invalid` the `{ errors }` body of a 400 from the validators.
   */
  datatype Reply<+T> =
    | Done(code: int, value: T)
    | Rejected(code: int, message: string)
    | Invalid(errors: seq<FieldError>)
  {
    /** The HTTP status code of the response. */
    function Status(): int {
      match this
      case Done(c, _) => c
      case Rejected(c, _) => c
      case Invalid(_) => 400
    }
  }
}
