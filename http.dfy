/** The shapes of the HTTP helper's values (src/http.rs). The transport
    itself (hyper's client, GET and POST) is not part of this model: the
    session receives it as functions inside `Session.Remote`. */
module Http {

  /** hyper's error, carried through unchanged. */
  datatype HttpError = HttpError(message: string)

  /** The simplified response: a status code and the whole body as text. */
  datatype HttpResponse = HttpResponse(status: int, body: string)
}
