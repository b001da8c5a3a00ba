/** The library error of src/lib.rs and its `From` conversions, which is what
    every `?` and `try!` in the session and the transforms relies on. */
module Errors {
  import opened Wrappers
  import opened Xml
  import opened Http
  import opened Rpser

  /** `std::io::Error`, carried through unchanged. */
  datatype IoError = IoError(message: string)

  /** `confluence::Error`. */
  datatype Error =
    | MethodNotFoundInWsdl(methodName: string)
    | ReceivedNoLoginToken
    | Io(io: IoError)
    | Http(http: HttpError)
    | Rpc(rpc: RpcError)

  /** `From<HttpError>`. */
  function FromHttp(e: HttpError): Error {
    Http(e)
  }

  /** `From<RpcError>`. */
  function FromRpc(e: RpcError): Error {
    Rpc(e)
  }

  /** `From<IoError>`. */
  function FromIo(e: IoError): Error {
    Io(e)
  }

  /** `From<rpser::xml::Error>`: through `RpcError`. */
  function FromXml(e: XmlError): Error {
    FromRpc(XmlFailure(e))
  }

  /** No two conversions meet: each source error lands in its own variant,
      and each conversion is one-to-one, so the original error can always be
      told apart and recovered. */
  lemma ConversionsKeepKinds(x: XmlError, h: HttpError, r: RpcError, i: IoError)
    ensures FromXml(x) != FromHttp(h) && FromXml(x) != FromIo(i) && FromHttp(h) != FromIo(i)
    ensures FromRpc(r) != FromHttp(h) && FromRpc(r) != FromIo(i)
    ensures !FromXml(x).MethodNotFoundInWsdl? && FromXml(x) != ReceivedNoLoginToken
    ensures forall y :: FromXml(y) == FromXml(x) ==> y == x
    ensures forall g :: FromHttp(g) == FromHttp(h) ==> g == h
    ensures forall s :: FromRpc(s) == FromRpc(r) ==> s == r
    ensures forall j :: FromIo(j) == FromIo(i) ==> j == i
    ensures FromXml(x) == FromRpc(r) <==> r == XmlFailure(x)
  {
  }

  /** `?` on a tree query inside a function returning the library error. */
  function Lift<T>(r: Result<T, XmlError>): Result<T, Error> {
    match r
    case Ok(v) => Ok(v)
    case Err(x) => Err(FromXml(x))
  }
}
