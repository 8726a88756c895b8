/** The exceptions the modelled code raises, as values. Both controller packages
    define a `ControllerError` class of their own; the model does not tell the two
    classes apart. */
module Errors {
  import opened Wrappers
  import opened Json

  /** Why a `ControllerError` was raised. */
  datatype ControllerFault =
    | NotSetUp                 // `event_queue` read before a queue was attached
    | NoSession                // HTTP call on a controller without a client session
    | WalletTypeMissing        // protocol helper called before the wallet type was learned
    | IssuerIdRequired         // askar-anoncreds artifacts requested without an issuer id
    | WaitTimedOut(agent: Option<string>, topic: string, values: map<string, Json>)

  datatype Error =
    | TypeError(what: string)
    | AttributeError(what: string)
    | KeyError(key: string)
    | ValueError(message: string)
    | ControllerError(fault: ControllerFault)
      /** acapy_controller's `ControllerTimeoutError`: a subclass of both
          `ControllerError` and `asyncio.TimeoutError`. */
    | ControllerTimeoutError(agent: string, topic: string, values: map<string, Json>)
  {
    /** `isinstance(e, ControllerError)`. */
    predicate IsControllerError() {
      ControllerError? || ControllerTimeoutError?
    }

    /** `isinstance(e, asyncio.TimeoutError)`. */
    predicate IsTimeoutError() {
      ControllerTimeoutError?
    }
  }
}
