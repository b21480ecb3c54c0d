/** The RPC failure vocabulary and the handlers' catch blocks: an
    `RpcException` is rethrown unchanged, and any other exception becomes an
    `Internal` status whose detail starts "Unexpected error: ". */
module Rpc {
  import opened Results
  import opened Text

  datatype StatusCode = InvalidArgument | NotFound | Internal

  /** The status carried by an `RpcException`. */
  datatype Status = Status(code: StatusCode, detail: string)

  /** An exception thrown inside a handler's try block: either an
      `RpcException` raised on purpose, or any other exception, of which only
      the message is observable. */
  datatype Fault = Raised(status: Status) | Thrown(message: string)

  const UnexpectedErrorPrefix: string := "Unexpected error: "

  /** The two catch clauses of a handler. */
  function Catch(f: Fault): (s: Status)
    ensures s.code != Internal ==> f.Raised? && f.status == s
    ensures f.Raised? ==> s == f.status
    ensures f.Thrown? ==> s.code == Internal && Contains(s.detail, f.message)
  {
    match f
    case Raised(status) => status
    case Thrown(message) =>
      ContainsMiddle(UnexpectedErrorPrefix, message, "");
      assert UnexpectedErrorPrefix + message == UnexpectedErrorPrefix + message + "";
      Status(Internal, UnexpectedErrorPrefix + message)
  }

  /** A try block's outcome as the caller sees it after the catch clauses. */
  function CatchAll<T>(r: Result<T, Fault>): (r': Result<T, Status>)
    ensures r.Success? <==> r'.Success?
    ensures r.Success? ==> r'.value == r.value
    ensures r.Failure? ==> r'.error == Catch(r.error)
  {
    match r
    case Success(v) => Success(v)
    case Failure(f) => Failure(Catch(f))
  }

  /** Only an exception that is not an `RpcException` produces `Internal`
      status from the catch clauses, unless the raised status was itself
      `Internal`. */
  lemma InternalOnlyFromThrownOrRaisedInternal(f: Fault)
    requires Catch(f).code == Internal
    ensures f.Thrown? || f.status.code == Internal
  {
  }
}
