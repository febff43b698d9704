/** The client facade: a tagged union over the two clients. Login detects
    the UI version and logs in with the matching client only; every later
    call is forwarded to the client chosen at login, unchanged. */
module Clients {
  import opened Http
  import opened Interface
  import VersionDetector
  import Old = OldUiClient
  import New = NewUiClient

  datatype Client = OldUi(oldClient: Old.Client) | NewUi(newClient: New.Client)
  {
    /** The object of the held client. */
    function Held(): object {
      match this
      case OldUi(c) => c
      case NewUi(c) => c
    }

    /** The held client has not been consumed by a logout. */
    ghost predicate Usable()
      reads Held()
    {
      match this
      case OldUi(c) => !c.loggedOut
      case NewUi(c) => !c.loggedOut
    }
  }

  /** A request as it reaches one of the two backends. */
  datatype Wire = ToOld(oldRequest: Old.OldRequest) | ToNew(newRequest: New.ApiRequest)

  /** The facade's own errors: no version could be detected, or the chosen
      client's login failed with the error it reported. */
  datatype Error = InvalidVersion | WolError(cause: Interface.Error)

  function ToOldWire(request: Option<Old.OldRequest>): Option<Wire> {
    match request
    case Some(q) => Some(ToOld(q))
    case None => None
  }

  /** Detect the version from the probe, then log in with that client only.
      No version: InvalidVersion and no login request at all. Old or new UI:
      only that client's login request goes out, its error comes back
      unchanged inside WolError, and its client comes back under the
      matching tag. */
  method Login(baseUrl: Url, id: string, password: string, probe: VersionDetector.Probe, builds: bool,
               oldNet: Old.OldRequest -> Exchange, newNet: New.ApiRequest -> New.ApiReply)
    returns (r: Result<Client, Error>, sent: Option<Wire>)
    ensures VersionDetector.DetectVersion(probe).None? ==> r == Err(InvalidVersion) && sent.None?
    ensures VersionDetector.DetectVersion(probe) == Some(VersionDetector.OldUi) ==>
              var result := Old.LoginResult(baseUrl, id, password, builds, oldNet);
              sent == (if builds then Some(ToOld(Old.LoginRequest(baseUrl, id, password))) else None) &&
              (r.Ok? <==> result.Ok?) &&
              (r.Err? ==> r.error == WolError(result.error)) &&
              (r.Ok? ==> r.value.OldUi? && fresh(r.value.oldClient) && r.value.Usable() &&
                         r.value.oldClient.serviceUrl == baseUrl &&
                         r.value.oldClient.emfSessionId == Some(result.value))
    ensures VersionDetector.DetectVersion(probe) == Some(VersionDetector.NewUi) ==>
              var result := New.LoginResult(baseUrl, id, password, builds, newNet);
              sent == (if builds then Some(ToNew(New.ApiRequest(New.ServiceUrl(baseUrl), New.SessionLogin(id, password))))
                       else None) &&
              (r.Ok? <==> result.Ok?) &&
              (r.Err? ==> r.error == WolError(result.error)) &&
              (r.Ok? ==> r.value.NewUi? && fresh(r.value.newClient) && r.value.Usable() &&
                         r.value.newClient.serviceUrl == New.ServiceUrl(baseUrl))
  {
    var version := VersionDetector.DetectVersion(probe);
    if version.None? {
      return Err(InvalidVersion), None;
    }
    if version.value.OldUi? {
      var result, request := Old.Login(baseUrl, id, password, builds, oldNet);
      sent := ToOldWire(request);
      match result {
        case Ok(client) => r := Ok(OldUi(client));
        case Err(e) => r := Err(WolError(e));
      }
    } else {
      var result, request := New.Login(baseUrl, id, password, builds, newNet);
      sent := if request.Some? then Some(ToNew(request.value)) else None;
      match result {
        case Ok(client) => r := Ok(NewUi(client));
        case Err(e) => r := Err(WolError(e));
      }
    }
  }

  /** Forwarded to the held client: only its backend is asked, and its
      result comes back unchanged. */
  method ListPc(c: Client, oldNet: Old.OldRequest -> Exchange, newNet: New.ApiRequest -> New.ApiReply,
                parseMac: string -> Option<Mac6>)
    returns (r: WolResult<seq<PcInfo>>, sent: Option<Wire>)
    requires c.Usable()
    ensures c.OldUi? ==> sent.None? || sent.value.ToOld?
    ensures c.NewUi? ==> sent.Some? && sent.value.ToNew?
    ensures c.OldUi? ==>
              var o := c.oldClient;
              (o.emfSessionId.None? ==> r == Err(Auth) && sent.None?) &&
              (o.emfSessionId.Some? ==>
                 var request := Old.WolListRequest(o.serviceUrl, o.emfSessionId.value);
                 sent == Some(ToOld(request)) && r == Old.WolShowOutcome(oldNet(request), parseMac))
    ensures c.NewUi? ==>
              var request := New.ApiRequest(c.newClient.serviceUrl, New.WolShow);
              sent == Some(ToNew(request)) && r == New.ShowOutcome(newNet(request), parseMac)
  {
    match c {
      case OldUi(client) =>
        var request;
        r, request := client.ListPc(oldNet, parseMac);
        sent := ToOldWire(request);
      case NewUi(client) =>
        var request;
        r, request := client.ListPc(newNet, parseMac);
        sent := Some(ToNew(request));
    }
  }

  /** Forwarded to the held client: only its backend is asked, and its
      result comes back unchanged. */
  method SendWolPacket(c: Client, target: Mac6, oldNet: Old.OldRequest -> Exchange,
                       newNet: New.ApiRequest -> New.ApiReply)
    returns (r: WolResult<()>, sent: Option<Wire>)
    requires c.Usable()
    ensures c.OldUi? ==> sent.None? || sent.value.ToOld?
    ensures c.NewUi? ==> sent.Some? && sent.value.ToNew?
    ensures c.OldUi? ==>
              var o := c.oldClient;
              (o.emfSessionId.None? ==> r == Err(Auth) && sent.None?) &&
              (o.emfSessionId.Some? ==>
                 var request := Old.WakeupRequest(o.serviceUrl, o.emfSessionId.value, target);
                 sent == Some(ToOld(request)) && r == Old.SignalOutcome(oldNet(request)))
    ensures c.NewUi? ==>
              var request := New.ApiRequest(c.newClient.serviceUrl, New.WolSignal(target));
              sent == Some(ToNew(request)) && r == New.Acknowledge(newNet(request))
  {
    match c {
      case OldUi(client) =>
        var request;
        r, request := client.SendWolPacket(target, oldNet);
        sent := ToOldWire(request);
      case NewUi(client) =>
        var request;
        r, request := client.SendWolPacket(target, newNet);
        sent := Some(ToNew(request));
    }
  }

  /** Forwarded to the held client, which it consumes: only its backend is
      asked, and its result comes back unchanged. */
  method Logout(c: Client, oldNet: Old.OldRequest -> Exchange, newNet: New.ApiRequest -> New.ApiReply)
    returns (r: WolResult<()>, sent: Option<Wire>)
    requires c.Usable()
    modifies c.Held()
    ensures !c.Usable()
    ensures c.OldUi? ==> sent.None? || sent.value.ToOld?
    ensures c.NewUi? ==> sent.Some? && sent.value.ToNew?
    ensures c.OldUi? ==>
              var o := c.oldClient;
              (o.emfSessionId.None? ==> r == Err(Auth) && sent.None?) &&
              (o.emfSessionId.Some? ==>
                 var request := Old.LogoutRequest(o.serviceUrl, o.emfSessionId.value);
                 sent == Some(ToOld(request)) && r == Old.LogoutOutcome(oldNet(request)))
    ensures c.NewUi? ==>
              var request := New.ApiRequest(c.newClient.serviceUrl, New.SessionLogout);
              sent == Some(ToNew(request)) && r == New.Acknowledge(newNet(request))
  {
    match c {
      case OldUi(client) =>
        var request;
        r, request := client.Logout(oldNet);
        sent := ToOldWire(request);
      case NewUi(client) =>
        var request;
        r, request := client.Logout(newNet);
        sent := Some(ToNew(request));
    }
  }
}
