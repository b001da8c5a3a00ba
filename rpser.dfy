/** The shapes the session needs from the envelope codec (`rpser::Method`,
    `rpser::Response`, `rpser::RpcError`). The codec's own source,
    src/rpser/mod.rs, is not part of this model: rendering an envelope and
    parsing a reply are functions the session receives in `Session.Remote`. */
module Rpser {
  import opened Xml

  /** `RpcError`: a tree error converted into it, or an envelope-level
      failure (malformed document, missing envelope or body). */
  datatype RpcError = XmlFailure(xml: XmlError) | EnvelopeFailure(message: string)

  /** A call descriptor: the method name and its parameters in call order. */
  datatype Method = Method(name: string, params: seq<Element>)

  /** `Method::new(name)`. */
  function NewMethod(name: string): Method {
    Method(name, [])
  }

  /** `Method::with(param)`: appends one parameter. */
  function With(m: Method, param: Element): Method {
    m.(params := m.params + [param])
  }

  /** A parsed reply: the payload found inside the envelope body. */
  datatype Response = Response(body: Element)
}
