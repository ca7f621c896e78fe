/** Option and Result, and the errors the deployment helper raises. */
module Wrappers {

  /** `nil` or a value. */
  datatype Option<+T> = None | Some(value: T) {
    function GetOr(default: T): T {
      match this
      case Some(v) => v
      case None => default
    }
  }

  /** A value, or the exception that was raised instead. */
  datatype Result<+R, +E> = Success(value: R) | Failure(error: E)

  /** The exceptions raised by `Deploy`. */
  datatype Error =
    | MissingRequiredEnv            // `initialize`: DEPLOY_SERVER or IMAGE_REPOSITORY_PREFIX unset
    | EmptyEnv(key: string)         // `prepare`: a checked key holds ''
    | UndefinedConstant(name: string) // NameError on evaluating an undefined constant

  /** The message Ruby reports for each error. */
  function Message(e: Error): string {
    match e
    case MissingRequiredEnv => "Missing required ENV variables!"
    case EmptyEnv(key) => "ENV " + key + " is empty!"
    case UndefinedConstant(name) => "uninitialized constant Deploy::" + name
  }
}
