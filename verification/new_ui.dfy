/** The client for the new web UI: every operation POSTs a JSON call to the
    single service endpoint and reads back an envelope `{result?, error?}`.
    The session lives in the HTTP library's cookie jar, which is not part of
    this model. */
module NewUiClient {
  import opened Http
  import opened Interface

  const ServicePath := "cgi/service.cgi"

  /** The one endpoint every call goes to. */
  function ServiceUrl(baseUrl: Url): Url {
    Join(baseUrl, ServicePath)
  }

  /** The calls the client makes, one per `method` of the JSON body
      (`session/login`, `wol/show`, `wol/signal`, `session/logout`), with
      their parameters. */
  datatype ApiCall =
    | SessionLogin(id: string, pw: string)
    | WolShow
    | WolSignal(target: Mac6)
    | SessionLogout

  /** A POST of a JSON call to a URL. */
  datatype ApiRequest = ApiRequest(url: Url, call: ApiCall)

  /** A PC as the router lists it: the address text and the name. */
  datatype RawPc = RawPc(mac: string, pcname: string)

  /** A JSON value, as far as the client distinguishes them: `null`, an
      array of `{mac, pcname}` objects with string members, or anything else. */
  datatype Json = Null | PcArray(entries: seq<RawPc>) | OtherJson(text: string)

  /** What came back for one call: nothing, a body that is not a JSON object,
      or the envelope's two optional members (`None` when a member is absent). */
  datatype ApiReply =
    | ApiNoResponse(cause: TransportError)
    | ApiUnreadable(cause: TransportError)
    | ApiEnvelope(result: Option<Json>, error: Option<Json>)

  /** An `error` member that decodes to `Some`: present and not `null`. */
  predicate HasError(reply: ApiReply) {
    reply.ApiEnvelope? && reply.error.Some? && reply.error.value != Null
  }

  /** Login, signal and logout: a transport failure, a server failure when
      the envelope carries an error, and success otherwise, whatever `result`
      holds. These calls never report Auth, Parsing or Init. */
  function Acknowledge(reply: ApiReply): (r: WolResult<()>)
    ensures r.Ok? <==> reply.ApiEnvelope? && !HasError(reply)
    ensures r == Err(Server) <==> HasError(reply)
    ensures !reply.ApiEnvelope? ==> r == Err(Reqwest(reply.cause))
    ensures r.Err? ==> r.error.Server? || r.error.Reqwest?
  {
    match reply
    case ApiNoResponse(cause) => Err(Reqwest(cause))
    case ApiUnreadable(cause) => Err(Reqwest(cause))
    case ApiEnvelope(_, error) =>
      if error.Some? && error.value != Null then Err(Server) else Ok(())
  }

  /** Decoding the listed PCs: every address text must parse, else the whole
      decode fails; otherwise the PCs in the same order, name from `pcname`. */
  function DecodePcs(entries: seq<RawPc>, parseMac: string -> Option<Mac6>): (r: WolResult<seq<PcInfo>>)
    ensures r.Ok? <==> forall i :: 0 <= i < |entries| ==> parseMac(entries[i].mac).Some?
    ensures r.Ok? ==> (|r.value| == |entries| &&
              forall i :: 0 <= i < |entries| ==>
                parseMac(entries[i].mac).Some? &&
                r.value[i] == PcInfo(entries[i].pcname, parseMac(entries[i].mac).value))
    ensures r.Err? ==> r.error == Reqwest(DecodeFailed)
    decreases |entries|
  {
    if entries == [] then Ok([])
    else
      match parseMac(entries[0].mac)
      case None => Err(Reqwest(DecodeFailed))
      case Some(mac) =>
        match DecodePcs(entries[1..], parseMac)
        case Err(e) => Err(e)
        case Ok(pcs) => Ok([PcInfo(entries[0].pcname, mac)] + pcs)
  }

  /** Decoding the `result` member as an optional list of PCs; `null` and
      absence both give `None`, a value of another shape fails to decode. */
  function DecodeShowResult(result: Option<Json>, parseMac: string -> Option<Mac6>)
    : (r: WolResult<Option<seq<PcInfo>>>)
    ensures r.Err? <==>
              result.Some? && (result.value.OtherJson? ||
                (result.value.PcArray? &&
                 exists i :: 0 <= i < |result.value.entries| && parseMac(result.value.entries[i].mac).None?))
    ensures r.Err? ==> r.error == Reqwest(DecodeFailed)
    ensures r == Ok(None) <==> result.None? || result.value == Null
    ensures r.Ok? && r.value.Some? ==>
              result.Some? && result.value.PcArray? && DecodePcs(result.value.entries, parseMac) == Ok(r.value.value)
  {
    match result
    case None => Ok(None)
    case Some(Null) => Ok(None)
    case Some(PcArray(entries)) =>
      (match DecodePcs(entries, parseMac)
       case Ok(pcs) => Ok(Some(pcs))
       case Err(e) => Err(e))
    case Some(OtherJson(_)) => Err(Reqwest(DecodeFailed))
  }

  /** The `wol/show` answer: the envelope is decoded first, so an address
      that does not parse is a decode failure, not Parsing; then an error
      member means Server even beside a result, and a missing result means
      Server too; otherwise the listed PCs, in order. */
  function ShowOutcome(reply: ApiReply, parseMac: string -> Option<Mac6>): (r: WolResult<seq<PcInfo>>)
    ensures !reply.ApiEnvelope? ==> r == Err(Reqwest(reply.cause))
    ensures reply.ApiEnvelope? && DecodeShowResult(reply.result, parseMac).Ok? ==>
              (r == Err(Server) <==> HasError(reply) || reply.result.None? || reply.result.value == Null)
    ensures r.Ok? <==>
              reply.ApiEnvelope? && !HasError(reply) && reply.result.Some? && reply.result.value.PcArray? &&
              forall i :: 0 <= i < |reply.result.value.entries| ==>
                parseMac(reply.result.value.entries[i].mac).Some?
    ensures r.Ok? ==> (|r.value| == |reply.result.value.entries| &&
              forall i :: 0 <= i < |r.value| ==>
                r.value[i].name == reply.result.value.entries[i].pcname &&
                Some(r.value[i].macAddress) == parseMac(reply.result.value.entries[i].mac))
    ensures reply.ApiEnvelope? && reply.result.Some? && reply.result.value.PcArray? &&
            (exists i :: 0 <= i < |reply.result.value.entries| &&
               parseMac(reply.result.value.entries[i].mac).None?) ==>
              r == Err(Reqwest(DecodeFailed))
    ensures reply.ApiEnvelope? && DecodeShowResult(reply.result, parseMac).Err? ==> r == Err(Reqwest(DecodeFailed))
    ensures reply.ApiEnvelope? && reply.result.Some? && reply.result.value.OtherJson? ==>
              r == Err(Reqwest(DecodeFailed))
    ensures r.Err? ==> r.error.Server? || r.error.Reqwest?
  {
    match reply
    case ApiNoResponse(cause) => Err(Reqwest(cause))
    case ApiUnreadable(cause) => Err(Reqwest(cause))
    case ApiEnvelope(result, error) =>
      match DecodeShowResult(result, parseMac)
      case Err(e) => Err(e)
      case Ok(pcs) =>
        if error.Some? && error.value != Null then Err(Server)
        else if pcs.None? then Err(Server)
        else Ok(pcs.value)
  }

  /** What the factory's login yields: Init when the HTTP client cannot be
      built, otherwise the envelope of the `session/login` call. */
  function LoginResult(baseUrl: Url, id: string, password: string, builds: bool,
                       net: ApiRequest -> ApiReply): WolResult<()>
  {
    if builds then Acknowledge(net(ApiRequest(ServiceUrl(baseUrl), SessionLogin(id, password))))
    else Err(Init)
  }

  /** A new-UI client: the service endpoint, fixed at login. */
  class Client {
    const serviceUrl: Url
    /** Whether `Logout` has taken the client: logout consumes the client,
        so nothing can be called on it afterwards. */
    ghost var loggedOut: bool

    constructor (serviceUrl: Url)
      ensures this.serviceUrl == serviceUrl && !loggedOut
    {
      this.serviceUrl := serviceUrl;
      loggedOut := false;
    }

    /** POSTs `wol/show` with no local session check; the listed PCs. */
    method ListPc(net: ApiRequest -> ApiReply, parseMac: string -> Option<Mac6>)
      returns (r: WolResult<seq<PcInfo>>, sent: ApiRequest)
      requires !loggedOut
      ensures sent == ApiRequest(serviceUrl, WolShow)
      ensures r == ShowOutcome(net(sent), parseMac)
    {
      sent := ApiRequest(serviceUrl, WolShow);
      r := ShowOutcome(net(sent), parseMac);
    }

    /** POSTs `wol/signal` with the target address as its one parameter. */
    method SendWolPacket(target: Mac6, net: ApiRequest -> ApiReply)
      returns (r: WolResult<()>, sent: ApiRequest)
      requires !loggedOut
      ensures sent == ApiRequest(serviceUrl, WolSignal(target))
      ensures r == Acknowledge(net(sent))
    {
      sent := ApiRequest(serviceUrl, WolSignal(target));
      r := Acknowledge(net(sent));
    }

    /** Consumes the client; POSTs `session/logout`. */
    method Logout(net: ApiRequest -> ApiReply) returns (r: WolResult<()>, sent: ApiRequest)
      requires !loggedOut
      modifies this
      ensures loggedOut
      ensures sent == ApiRequest(serviceUrl, SessionLogout)
      ensures r == Acknowledge(net(sent))
    {
      sent := ApiRequest(serviceUrl, SessionLogout);
      r := Acknowledge(net(sent));
      loggedOut := true;
    }
  }

  /** The factory login: build the HTTP client (Init on failure, with no
      request), POST `session/login` with the credentials to the service
      endpoint, and on success hold that endpoint. */
  method Login(baseUrl: Url, id: string, password: string, builds: bool, net: ApiRequest -> ApiReply)
    returns (r: Result<Client, Error>, sent: Option<ApiRequest>)
    ensures sent == (if builds then Some(ApiRequest(ServiceUrl(baseUrl), SessionLogin(id, password))) else None)
    ensures r.Ok? <==> LoginResult(baseUrl, id, password, builds, net).Ok?
    ensures r.Ok? ==> fresh(r.value) && !r.value.loggedOut && r.value.serviceUrl == ServiceUrl(baseUrl)
    ensures r.Err? ==> r.error == LoginResult(baseUrl, id, password, builds, net).error
  {
    if !builds {
      return Err(Init), None;
    }
    var serviceUrl := ServiceUrl(baseUrl);
    var request := ApiRequest(serviceUrl, SessionLogin(id, password));
    sent := Some(request);
    match Acknowledge(net(request)) {
      case Ok(_) =>
        var client := new Client(serviceUrl);
        r := Ok(client);
      case Err(e) =>
        r := Err(e);
    }
  }
}
