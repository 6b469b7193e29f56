/** Option and Result types shared by the whole model. A C++ exception
    (std::out_of_range, std::runtime_error, nlohmann::json's type errors, a
    failed getComponent) becomes an `Err` carrying the kind of exception. */
module Wrappers {

  datatype Option<+T> = None | Some(value: T)

  /** The exception kinds the engine code can raise. */
  datatype Error =
    | OutOfRange          // std::out_of_range, json::at on a missing key or index
    | InvalidArgument     // std::invalid_argument (stoi/stof on a non-number)
    | TypeError           // json::type_error (at/get on a value of the wrong kind)
    | MissingComponent    // getComponent<T> on an entity without a T
    | RuntimeError(message: string)

  datatype Result<+T> = Ok(value: T) | Err(error: Error) {
    predicate IsFailure() { Err? }

    function PropagateFailure<U>(): Result<U>
      requires Err?
    {
      Err(error)
    }

    function Extract(): T
      requires Ok?
    {
      value
    }
  }
}
