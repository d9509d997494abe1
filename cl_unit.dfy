/**
 * The server's view of one peer connection: its identity and what the server
 * did to it. Sending, receiving and disconnecting are recorded in `trace`
 * rather than performed.
 */
module Units {
  import opened ResponseCodes
  import opened Values

  /** Exceptions other than `ValueError` that end a handshake or a message loop. */
  datatype Fault =
    | NoClientAuthPredicate          // `ResponseCode.is_client_auth` is not an attribute
    | AnyInIsinstance                // `isinstance(value, Any)` raises a TypeError
    | DuplicateKeyword(name: string) // a keyword given twice in the call to `_call_func`
    | UnhashableFuncName             // `dict.get` with a list or dict as key
    | ReceiveError(err: string)      // any other failure while receiving
    | StoreError(err: string)        // a non-`ValueError` raised by the credential store

  /** The content of an error-log envelope sent to the peer. */
  datatype Problem =
    | Says(text: string)      // a fixed message (a `ValueError` text, or the timeout notice)
    | NotACode(v: Value)      // the `ValueError` of `ResponseCode(v)`
    | Unexpected(f: Fault)    // "An unexpected error occurred: ..."

  /** What the server does to a connection. */
  datatype Action =
    | Sent(code: ResponseCode, fields: Fields)
    | ErrorLog(problem: Problem)
    | Disconnect

  class ClUnit {
    var login: Value
    var trace: seq<Action>

    /** A freshly accepted connection, with the placeholder identity "init". */
    constructor ()
      ensures login == VStr("init") && trace == []
    {
      login := VStr("init");
      trace := [];
    }
  }
}
