/** The client session of src/lib.rs: logging in (service description,
    `login` call, token), the generic `call`, `logout` and `get_space`.
    HTTP, the envelope codec and the XML tokenizer are not part of this
    model; the session receives them as the functions of a `Remote`. */
module Session {
  import opened Wrappers
  import opened Http
  import opened Xml
  import opened Rpser
  import opened Errors
  import opened Space
  import opened Transforms
  import opened Wsdl

  /** Where the service description lives, relative to the base URL. */
  const V2_API_RPC_PATH: string := "/rpc/soap-axis/confluenceservice-v2?wsdl"

  /** The service-description URL built by `login`: at most one trailing `/`
      is removed from the base URL before the fixed path is appended. */
  function WsdlUrl(url: string): (r: string)
    ensures |r| >= |V2_API_RPC_PATH| && r[|r| - |V2_API_RPC_PATH|..] == V2_API_RPC_PATH
    ensures var base := r[..|r| - |V2_API_RPC_PATH|];
      url == base + "/" || (url == base && (url == [] || url[|url| - 1] != '/'))
  {
    var base := if |url| > 0 && url[|url| - 1] == '/' then url[..|url| - 1] else url;
    assert (base + V2_API_RPC_PATH)[..|base|] == base;
    assert (base + V2_API_RPC_PATH)[|base|..] == V2_API_RPC_PATH;
    base + V2_API_RPC_PATH
  }

  /** A base URL with and without one trailing slash names the same service
      description; a second trailing slash is kept. */
  lemma TrailingSlashIgnored(url: string)
    ensures url == [] || url[|url| - 1] != '/' ==> WsdlUrl(url + "/") == WsdlUrl(url)
    ensures url != [] && url[|url| - 1] == '/' ==> WsdlUrl(url + "/") == url + V2_API_RPC_PATH
  {
    assert (url + "/")[..|url|] == url;
  }

  /** A SOAP POST: target URL, `SOAPAction` header, envelope text. */
  datatype HttpRequest = HttpRequest(url: string, action: string, envelope: string)

  /** The outside world as the session sees it: `http::get`,
      `http::soap_action`, the XML tokenizer, `Method::as_xml` and
      `Response::from_xml`. */
  datatype Remote = Remote(
    get: string -> Result<HttpResponse, HttpError>,
    soapAction: HttpRequest -> Result<HttpResponse, HttpError>,
    tokenize: string -> seq<XmlEvent>,
    render: (Method, string) -> string,
    parse: string -> Result<Response, RpcError>)

  /** `Session::call`: look the method up in the service description, post
      its envelope to that operation's URL with the method name as the
      action, and parse the reply. Transport errors become `Error::Http`,
      codec errors `Error::Rpc`; only an unknown name gives
      `MethodNotFoundInWsdl`. */
  function Call(wsdl: Wsdl, m: Method, remote: Remote): (r: Result<Response, Error>)
    ensures r == Err(MethodNotFoundInWsdl(m.name)) <==> m.name !in wsdl.operations
    ensures m.name in wsdl.operations ==>
      var url := wsdl.operations[m.name].url;
      var posted := remote.soapAction(HttpRequest(url, m.name, remote.render(m, url)));
      && (posted.Err? ==> r == Err(FromHttp(posted.error)))
      && (posted.Ok? && remote.parse(posted.value.body).Err? ==> r == Err(FromRpc(remote.parse(posted.value.body).error)))
      && (posted.Ok? && remote.parse(posted.value.body).Ok? ==> r == Ok(remote.parse(posted.value.body).value))
  {
    if m.name !in wsdl.operations then Err(MethodNotFoundInWsdl(m.name))
    else
      var url := wsdl.operations[m.name].url;
      match remote.soapAction(HttpRequest(url, m.name, remote.render(m, url)))
      case Err(e) => Err(FromHttp(e))
      case Ok(response) =>
        match remote.parse(response.body)
        case Err(e) => Err(FromRpc(e))
        case Ok(reply) => Ok(reply)
  }

  /** An unknown method fails before anything is sent: the outcome is the
      same whatever the transport and codec would have done. */
  lemma UnknownMethodSendsNothing(wsdl: Wsdl, m: Method, remote: Remote, other: Remote)
    requires m.name !in wsdl.operations
    ensures Call(wsdl, m, remote) == Call(wsdl, m, other)
    ensures Call(wsdl, m, remote) == Err(MethodNotFoundInWsdl(m.name))
  {
  }

  /** A call depends on the service description only through the entry for
      its own method name. */
  lemma CallReadsOwnEntry(wsdl: Wsdl, other: Wsdl, m: Method, remote: Remote)
    requires Lookup(wsdl.operations, m.name) == Lookup(other.operations, m.name)
    ensures Call(wsdl, m, remote) == Call(other, m, remote)
  {
  }

  /** A parameter element: a node with a name and a text, nothing else. */
  predicate IsTextParam(e: Element, name: string, text: string) {
    e.name == name && e.text == Some(text) && e.children == [] && e.attributes == map[]
  }

  /** The `login` call: `username`, then `password`. */
  function LoginRequest(user: string, pass: string): (r: Method)
    ensures r.name == "login" && |r.params| == 2
    ensures IsTextParam(r.params[0], "username", user) && IsTextParam(r.params[1], "password", pass)
  {
    With(With(NewMethod("login"), WithText(Node("username"), user)), WithText(Node("password"), pass))
  }

  /** The `logout` call: the session token only. */
  function LogoutRequest(token: string): (r: Method)
    ensures r.name == "logout" && |r.params| == 1
    ensures IsTextParam(r.params[0], "token", token)
  {
    With(NewMethod("logout"), WithText(Node("token"), token))
  }

  /** The `getSpace` call: the session token, then the space key. */
  function GetSpaceRequest(token: string, spaceKey: string): (r: Method)
    ensures r.name == "getSpace" && |r.params| == 2
    ensures IsTextParam(r.params[0], "token", token) && IsTextParam(r.params[1], "spaceKey", spaceKey)
  {
    With(With(NewMethod("getSpace"), WithText(Node("token"), token)), WithText(Node("spaceKey"), spaceKey))
  }

  /** The token in a `login` reply: the text of the `loginReturn` child. A
      missing child is a tree error; a child without text is
      `ReceivedNoLoginToken`. */
  function LoginToken(body: Element): (r: Result<string, Error>)
    ensures ChildNamed(body, "loginReturn").None? ==> r == Err(FromXml(NotFoundAtPath(["loginReturn"])))
    ensures ChildNamed(body, "loginReturn").Some? ==>
      match ChildNamed(body, "loginReturn").value.text
      case Some(token) => r == Ok(token)
      case None => r == Err(ReceivedNoLoginToken)
  {
    AtSingleSegment(body, "loginReturn");
    var loginReturn :- Lift(AtPath(body, ["loginReturn"]));
    match loginReturn.text
    case Some(token) => Ok(token)
    case None => Err(ReceivedNoLoginToken)
  }

  /** The outcome of a `logout` reply: true exactly when the `logoutReturn`
      child's text is `true`; any other text, or none, is false. */
  function LogoutResult(body: Element): (r: Result<bool, Error>)
    ensures ChildNamed(body, "logoutReturn").None? ==> r == Err(FromXml(NotFoundAtPath(["logoutReturn"])))
    ensures ChildNamed(body, "logoutReturn").Some? ==>
      r.Ok? && (r.value <==> ChildNamed(body, "logoutReturn").value.text == Some("true"))
  {
    AtSingleSegment(body, "logoutReturn");
    var logoutReturn :- Lift(AtPath(body, ["logoutReturn"]));
    Ok(logoutReturn.text == Some("true"))
  }

  /** The `getSpace` reply: its `getSpaceReturn` child, read as a space. */
  function SpaceResult(body: Element): (r: Result<Space, Error>)
    ensures ChildNamed(body, "getSpaceReturn").None? ==> r == Err(FromXml(NotFoundAtPath(["getSpaceReturn"])))
    ensures ChildNamed(body, "getSpaceReturn").Some? ==> r == SpaceFromElement(ChildNamed(body, "getSpaceReturn").value)
  {
    AtSingleSegment(body, "getSpaceReturn");
    var spaceReturn :- Lift(AtPath(body, ["getSpaceReturn"]));
    SpaceFromElement(spaceReturn)
  }

  /** What `login` yields: the service description it fetched and the token
      it received, or the first error on the way. */
  function LoginOutcome(url: string, user: string, pass: string, remote: Remote): Result<(Wsdl, string), Error> {
    match remote.get(WsdlUrl(url))
    case Err(e) => Err(FromHttp(e))
    case Ok(response) =>
      var wsdl := Wsdl(Registry(remote.tokenize(response.body)));
      var reply :- Call(wsdl, LoginRequest(user, pass), remote);
      var token :- LoginToken(reply.body);
      Ok((wsdl, token))
  }

  /** A service description whose scanned part declares no `login`
      operation makes login fail with `MethodNotFoundInWsdl("login")`, and
      a successful login always went through a declared `login`. */
  lemma LoginNeedsLoginOperation(url: string, user: string, pass: string, remote: Remote)
    requires remote.get(WsdlUrl(url)).Ok?
    ensures var events := remote.tokenize(remote.get(WsdlUrl(url)).value.body);
      LastEntry(events[..StopIndex(events)], "login").None? ==>
        LoginOutcome(url, user, pass, remote) == Err(MethodNotFoundInWsdl("login"))
    ensures LoginOutcome(url, user, pass, remote).Ok? ==>
      "login" in LoginOutcome(url, user, pass, remote).value.0.operations
  {
    var events := remote.tokenize(remote.get(WsdlUrl(url)).value.body);
    RegistryIsLastEntry(events, "login");
  }

  /** `Session`: the fetched service description and the login token. */
  class Session {
    var wsdl: Wsdl
    var token: string

    /** The session as `login` first builds it, before the token is known. */
    constructor (wsdl: Wsdl)
      ensures this.wsdl == wsdl && token == ""
    {
      this.wsdl := wsdl;
      token := "";
    }

    /** `Session::login`: fetch the service description, call `login`,
        store the returned token in the new session. */
    static method Login(url: string, user: string, pass: string, remote: Remote) returns (r: Result<Session, Error>)
      ensures r.Ok? <==> LoginOutcome(url, user, pass, remote).Ok?
      ensures r.Err? ==> r.error == LoginOutcome(url, user, pass, remote).error
      ensures r.Ok? ==> fresh(r.value)
      ensures r.Ok? ==> r.value.wsdl == LoginOutcome(url, user, pass, remote).value.0
      ensures r.Ok? ==> r.value.token == LoginOutcome(url, user, pass, remote).value.1
    {
      var fetched := Fetch(remote.get(WsdlUrl(url)), remote.tokenize);
      if fetched.Err? {
        return Err(FromHttp(fetched.error));
      }
      var session := new Session(fetched.value);
      var reply := Call(session.wsdl, LoginRequest(user, pass), remote);
      if reply.Err? {
        return Err(reply.error);
      }
      var loginReturn := Descend(reply.value.body, ["loginReturn"]);
      AtSingleSegment(reply.value.body, "loginReturn");
      match loginReturn {
        case Err(e) =>
          return Err(FromXml(e));
        case Ok(element) =>
          match element.text {
            case None =>
              return Err(ReceivedNoLoginToken);
            case Some(token) =>
              session.token := token;
              return Ok(session);
          }
      }
    }

    /** `Session::logout`: sends the session's token and reads the verdict. */
    function Logout(remote: Remote): (r: Result<bool, Error>)
      reads this
      ensures "logout" !in wsdl.operations ==> r == Err(MethodNotFoundInWsdl("logout"))
      ensures Call(wsdl, LogoutRequest(token), remote).Err? ==> r == Err(Call(wsdl, LogoutRequest(token), remote).error)
      ensures Call(wsdl, LogoutRequest(token), remote).Ok? ==> r == LogoutResult(Call(wsdl, LogoutRequest(token), remote).value.body)
      ensures r == Ok(false) <==>
        && Call(wsdl, LogoutRequest(token), remote).Ok?
        && var body := Call(wsdl, LogoutRequest(token), remote).value.body;
           ChildNamed(body, "logoutReturn").Some? && ChildNamed(body, "logoutReturn").value.text != Some("true")
      ensures r.Ok? ==> Call(wsdl, LogoutRequest(token), remote).Ok?
      ensures r == Ok(true) <==>
        && Call(wsdl, LogoutRequest(token), remote).Ok?
        && var body := Call(wsdl, LogoutRequest(token), remote).value.body;
           ChildNamed(body, "logoutReturn").Some? && ChildNamed(body, "logoutReturn").value.text == Some("true")
    {
      var reply :- Call(wsdl, LogoutRequest(token), remote);
      LogoutResult(reply.body)
    }

    /** `Session::get_space`: sends the token and the key and reads the
        `getSpaceReturn` child field by field, as the space transform does. */
    function GetSpace(spaceKey: string, remote: Remote): (r: Result<Space, Error>)
      reads this
      ensures "getSpace" !in wsdl.operations ==> r == Err(MethodNotFoundInWsdl("getSpace"))
      ensures Call(wsdl, GetSpaceRequest(token, spaceKey), remote).Err? ==>
        r == Err(Call(wsdl, GetSpaceRequest(token, spaceKey), remote).error)
      ensures Call(wsdl, GetSpaceRequest(token, spaceKey), remote).Ok? ==>
        r == SpaceResult(Call(wsdl, GetSpaceRequest(token, spaceKey), remote).value.body)
      ensures r.Ok? ==>
        && Call(wsdl, GetSpaceRequest(token, spaceKey), remote).Ok?
        && var body := Call(wsdl, GetSpaceRequest(token, spaceKey), remote).value.body;
           ChildNamed(body, "getSpaceReturn").Some? &&
           SpaceFromElement(ChildNamed(body, "getSpaceReturn").value) == r
      ensures r.Ok? ==> r.value.spaceGroup == Some(r.value.name)
    {
      var reply :- Call(wsdl, GetSpaceRequest(token, spaceKey), remote);
      SpaceResult(reply.body)
    }
  }
}
