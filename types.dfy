/** Failure-compatible wrappers and the error kinds the program throws. */
module Types {

  datatype Option<+T> = None | Some(value: T)

  /** The exceptions the program raises, one constructor per distinct throw site. */
  datatype Error =
    | TypeMismatch(requested: nat, actual: nat)   // validate_variant_type: "Mismatched type for get_value"
    | UnknownVariantType(vt: nat)                 // get_number: "Unknown VARIANT type"
    | UnknownGetValueType(vt: nat)                // the unspecialised GetValue functor
    | OutOfRange                                  // boost::string_ref::substr past the end
    | CredentialPrompt(code: nat)                 // "Did not get credentials"
    | NoDomainSpecified                           // "Could not create Auth identity. No domain specified"
    | ComInitialization                           // create_com_connection
    | LocatorCreation                             // CoCreateInstance of the locator
    | Connection                                  // ConnectServer
    | ServiceBlanket                              // CoSetProxyBlanket on the service
    | QueryExecution                              // ExecQuery
    | EnumeratorBlanket                           // CoSetProxyBlanket on the enumerator
    | RowCallback(reason: string)                 // any other exception a row callback throws

  /** A value, or the exception that was thrown instead. */
  datatype Result<+T> = Success(value: T) | Failure(error: Error) {
    predicate IsFailure() { Failure? }

    function PropagateFailure<U>(): Result<U>
      requires Failure?
    {
      Failure(error)
    }

    function Extract(): T
      requires Success?
    {
      value
    }
  }

  /** A check that either passes or throws. */
  datatype Outcome = Pass | Fail(error: Error) {
    predicate IsFailure() { Fail? }

    function PropagateFailure<U>(): Result<U>
      requires Fail?
    {
      Failure(error)
    }
  }
}
