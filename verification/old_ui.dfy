/** The client for the old web UI: form login that hands back a session
    id, then cookie-authenticated GETs whose plain-text answers are
    interpreted here. */
module OldUiClient {
  import opened Http
  import opened Interface
  import opened RustStr

  const LoginHandlerPath := "/sess-bin/login_handler.cgi"
  const WolListPath := "/sess-bin/info.cgi?act=wol_list"
  const WolApplyPath := "/sess-bin/wol_apply.cgi"
  const LogoutPath := "/sess-bin/login_session.cgi?logout=1"

  /** A request to the old UI, each path joined onto the base URL. */
  datatype OldRequest =
      /** A POST whose body is the given form, url-encoded. */
    | FormPost(url: Url, form: seq<(string, string)>)
      /** A GET carrying the given `Cookie` header. */
    | CookieGet(url: Url, cookie: string)
      /** A GET whose query is `act=wakeup&mac=` followed by the percent-encoded
          text form of `target`, carrying the given `Cookie` header. */
    | WakeupGet(url: Url, target: Mac6, cookie: string)

  function SessionCookie(session: string): string {
    "efm_session_id=" + session
  }

  function LoginRequest(baseUrl: Url, id: string, password: string): OldRequest {
    FormPost(Join(baseUrl, LoginHandlerPath),
             [("username", id), ("passwd", password), ("act", "session_id")])
  }

  function WolListRequest(serviceUrl: Url, session: string): OldRequest {
    CookieGet(Join(serviceUrl, WolListPath), SessionCookie(session))
  }

  function WakeupRequest(serviceUrl: Url, session: string, target: Mac6): OldRequest {
    WakeupGet(Join(serviceUrl, WolApplyPath), target, SessionCookie(session))
  }

  function LogoutRequest(serviceUrl: Url, session: string): OldRequest {
    CookieGet(Join(serviceUrl, LogoutPath), SessionCookie(session))
  }

  /** The login status rules: 200 hands back the body text as the session
      id, 502 means rejected credentials, any other status a server failure. */
  function LoginOutcome(x: Exchange): (r: WolResult<string>)
    ensures r.Ok? <==> x.Received? && x.status == OK && x.body.Text?
    ensures r.Ok? ==> r.value == x.body.text
    ensures r == Err(Auth) <==> x.Received? && x.status == BAD_GATEWAY
    ensures x.Received? && x.status != OK && x.status != BAD_GATEWAY ==> r == Err(Server)
    ensures x.NoResponse? ==> r == Err(Reqwest(x.cause))
    ensures x.Received? && x.status == OK && x.body.Unreadable? ==> r == Err(Reqwest(x.body.cause))
  {
    match x
    case NoResponse(cause) => Err(Reqwest(cause))
    case Received(status, body) =>
      if status == OK then
        match body
        case Text(session) => Ok(session)
        case Unreadable(cause) => Err(Reqwest(cause))
      else if status == BAD_GATEWAY then Err(Auth)
      else Err(Server)
  }

  /** What the factory's login yields: Init when the HTTP client cannot be
      built, otherwise the status rules applied to the login POST's answer. */
  function LoginResult(baseUrl: Url, id: string, password: string, builds: bool,
                       net: OldRequest -> Exchange): WolResult<string>
  {
    if builds then LoginOutcome(net(LoginRequest(baseUrl, id, password))) else Err(Init)
  }

  /** One line of the PC list: the `;`-separated fields as `split_terminator`
      yields them; the first must parse as an address, the second is the name,
      and any further field is ignored. */
  function ParseLine(line: string, parseMac: string -> Option<Mac6>): (r: WolResult<PcInfo>)
    ensures r.Err? ==> r.error == Parsing
  {
    var fields := SplitTerminator(line, ';');
    if |fields| == 0 then Err(Parsing)
    else
      match parseMac(fields[0])
      case None => Err(Parsing)
      case Some(mac) =>
        if |fields| < 2 then Err(Parsing) else Ok(PcInfo(fields[1], mac))
  }

  /** A line with no `;` (the empty line among them) never parses. */
  lemma ParseLineWithoutSemicolon(line: string, parseMac: string -> Option<Mac6>)
    requires ';' !in line
    ensures ParseLine(line, parseMac) == Err(Parsing)
  {
    SplitWithoutSep(line, ';');
  }

  /** A line whose first `;` is at `k` parses exactly when the text before
      it parses as an address and something follows it (so `mac;` fails);
      the name is then the text after it up to the next `;`. */
  lemma ParseLineAtFirstSemicolon(line: string, k: nat, parseMac: string -> Option<Mac6>)
    requires k < |line| && line[k] == ';' && ';' !in line[..k]
    ensures ParseLine(line, parseMac).Ok? <==> parseMac(line[..k]).Some? && k + 1 < |line|
    ensures ParseLine(line, parseMac).Ok? ==>
              ParseLine(line, parseMac).value.macAddress == parseMac(line[..k]).value &&
              LeadingField(line[k + 1..], ';', ParseLine(line, parseMac).value.name)
  {
    var a, t := line[..k], line[k + 1..];
    assert line == a + [';'] + t;
    SplitAtFirstSep(a, ';', t);
    SplitHead(t, ';');
    var rest := Split(t, ';');
    assert Split(line, ';') == [a] + rest;
    if t == [] {
      assert rest == [[]];
    }
  }

  /** The lines in order, each parsed; the first line that fails fails the
      whole list, so no partial list is ever returned. */
  function ParseEntries(lines: seq<string>, parseMac: string -> Option<Mac6>): (r: WolResult<seq<PcInfo>>)
    ensures r.Ok? <==> forall i :: 0 <= i < |lines| ==> ParseLine(lines[i], parseMac).Ok?
    ensures r.Ok? ==> (|r.value| == |lines| &&
              forall i :: 0 <= i < |lines| ==> ParseLine(lines[i], parseMac) == Ok(r.value[i]))
    ensures r.Err? ==> r.error == Parsing
    decreases |lines|
  {
    if lines == [] then Ok([])
    else
      match ParseLine(lines[0], parseMac)
      case Err(e) => Err(e)
      case Ok(pc) =>
        match ParseEntries(lines[1..], parseMac)
        case Err(e) => Err(e)
        case Ok(pcs) =>
          assert forall i :: 0 < i < |lines| ==> lines[i] == lines[1..][i - 1];
          Ok([pc] + pcs)
  }

  /** The body of the `wol_list` answer: one PC per line. */
  function ParseWolList(body: string, parseMac: string -> Option<Mac6>): (r: WolResult<seq<PcInfo>>)
    ensures body == [] ==> r == Ok([])
  {
    ParseEntries(Lines(body), parseMac)
  }

  /** A line `mac;name` that parses back to exactly that address and name. */
  predicate WellFormedEntry(macText: string, name: string, parseMac: string -> Option<Mac6>) {
    parseMac(macText).Some? && ';' !in macText && '\n' !in macText &&
    name != [] && ';' !in name && '\n' !in name && !EndsWithCr(name)
  }

  function EntryLine(entry: (string, string)): string {
    entry.0 + ";" + entry.1
  }

  /** How the router ends its lines: `\n` alone, or `\r\n`. */
  datatype LineEnding = Lf | Crlf

  function EntryLines(entries: seq<(string, string)>): seq<string> {
    seq(|entries|, i requires 0 <= i < |entries| => EntryLine(entries[i]))
  }

  /** The body the router sends for the given (address text, name) pairs. */
  function ListBody(entries: seq<(string, string)>, ending: LineEnding, finalNewline: bool): string {
    if entries == [] then ""
    else
      match ending
      case Lf => JoinWith(EntryLines(entries), '\n') + (if finalNewline then "\n" else "")
      case Crlf => JoinCrlf(EntryLines(entries)) + (if finalNewline then "\r\n" else "")
  }

  /** The lines of a list body are its entries' lines, whatever the ending. */
  lemma LinesOfListBody(entries: seq<(string, string)>, ending: LineEnding, finalNewline: bool)
    requires entries != []
    requires forall i :: 0 <= i < |entries| ==> '\n' !in EntryLines(entries)[i] && EntryLines(entries)[i] != []
    requires forall i :: 0 <= i < |entries| ==> !EndsWithCr(EntryLines(entries)[i])
    ensures Lines(ListBody(entries, ending, finalNewline)) == EntryLines(entries)
  {
    match ending
    case Lf => LinesOfText(EntryLines(entries), finalNewline);
    case Crlf => LinesOfCrlfText(EntryLines(entries), finalNewline);
  }

  lemma EntryLineParses(entry: (string, string), parseMac: string -> Option<Mac6>)
    requires WellFormedEntry(entry.0, entry.1, parseMac)
    ensures '\n' !in EntryLine(entry) && !EndsWithCr(EntryLine(entry))
    ensures ParseLine(EntryLine(entry), parseMac) == Ok(PcInfo(entry.1, parseMac(entry.0).value))
  {
    var line := EntryLine(entry);
    var k := |entry.0|;
    assert line[..k] == entry.0 && line[k + 1..] == entry.1;
    ParseLineAtFirstSemicolon(line, k, parseMac);
    var name := ParseLine(line, parseMac).value.name;
    assert name == entry.1[..|name|] == entry.1;
  }

  /** A body of N well-formed lines, ended by `\n` or by `\r\n`, with or
      without a final line ending, lists exactly N PCs in line order, each
      with the parsed address and the name of its line. */
  lemma ParseWolListOfBody(entries: seq<(string, string)>, ending: LineEnding,
                             finalNewline: bool, parseMac: string -> Option<Mac6>)
    requires forall i :: 0 <= i < |entries| ==> WellFormedEntry(entries[i].0, entries[i].1, parseMac)
    ensures ParseWolList(ListBody(entries, ending, finalNewline), parseMac).Ok?
    ensures var pcs := ParseWolList(ListBody(entries, ending, finalNewline), parseMac).value;
      |pcs| == |entries| &&
      forall i :: 0 <= i < |entries| ==>
        parseMac(entries[i].0).Some? && pcs[i] == PcInfo(entries[i].1, parseMac(entries[i].0).value)
  {
    if entries != [] {
      var lines := EntryLines(entries);
      forall i | 0 <= i < |entries|
        ensures '\n' !in lines[i] && lines[i] != [] && !EndsWithCr(lines[i])
        ensures ParseLine(lines[i], parseMac) == Ok(PcInfo(entries[i].1, parseMac(entries[i].0).value))
      {
        EntryLineParses(entries[i], parseMac);
      }
      LinesOfListBody(entries, ending, finalNewline);
    }
  }

  /** Interpreting the `wol_list` answer: its status is not looked at, only
      its body text. */
  function WolShowOutcome(x: Exchange, parseMac: string -> Option<Mac6>): (r: WolResult<seq<PcInfo>>)
    ensures x.NoResponse? ==> r == Err(Reqwest(x.cause))
    ensures x.Received? && x.body.Unreadable? ==> r == Err(Reqwest(x.body.cause))
    ensures x.Received? && x.body.Text? ==> r == ParseWolList(x.body.text, parseMac)
  {
    match x
    case NoResponse(cause) => Err(Reqwest(cause))
    case Received(_, Unreadable(cause)) => Err(Reqwest(cause))
    case Received(_, Text(body)) => ParseWolList(body, parseMac)
  }

  /** Interpreting the `wakeup` answer: a server failure exactly when the body
      holds `fail` (case-sensitive), otherwise success whatever the status. */
  function SignalOutcome(x: Exchange): (r: WolResult<()>)
    ensures x.NoResponse? ==> r == Err(Reqwest(x.cause))
    ensures x.Received? && x.body.Unreadable? ==> r == Err(Reqwest(x.body.cause))
    ensures x.Received? && x.body.Text? ==>
              (r == Err(Server) <==> exists i :: OccursAt(x.body.text, "fail", i)) &&
              (r.Ok? <==> !exists i :: OccursAt(x.body.text, "fail", i))
  {
    match x
    case NoResponse(cause) => Err(Reqwest(cause))
    case Received(_, Unreadable(cause)) => Err(Reqwest(cause))
    case Received(_, Text(body)) =>
      ContainsSpec(body, "fail");
      if Contains(body, "fail") then Err(Server) else Ok(())
  }

  /** The check is case-sensitive: "failed to wake" fails even with status
      200, while "FAILED" succeeds. */
  lemma SignalFailIsCaseSensitive()
    ensures SignalOutcome(Received(OK, Text("failed to wake"))) == Err(Server)
    ensures SignalOutcome(Received(OK, Text("FAILED"))) == Ok(())
  {
    assert OccursAt("failed to wake", "fail", 0);
    var loud := "FAILED";
    forall i | 0 <= i <= |loud| - 4 ensures !OccursAt(loud, "fail", i) {
      assert loud[i..i + 4][0] == loud[i] != 'f';
    }
    ContainsSpec(loud, "fail");
  }

  /** Interpreting the logout answer: success once a response arrives; its
      status and body are never looked at. */
  function LogoutOutcome(x: Exchange): (r: WolResult<()>)
    ensures r.Ok? <==> x.Received?
    ensures x.NoResponse? ==> r == Err(Reqwest(x.cause))
  {
    match x
    case NoResponse(cause) => Err(Reqwest(cause))
    case Received(_, _) => Ok(())
  }

  /** An old-UI client: the base URL and the session id handed out at login.
      Neither changes after construction. */
  class Client {
    const serviceUrl: Url
    const emfSessionId: Option<string>
    /** Whether `Logout` has taken the client: logout consumes the client,
        so nothing can be called on it afterwards. */
    ghost var loggedOut: bool

    constructor (serviceUrl: Url, emfSessionId: Option<string>)
      ensures this.serviceUrl == serviceUrl && this.emfSessionId == emfSessionId
      ensures !loggedOut
    {
      this.serviceUrl := serviceUrl;
      this.emfSessionId := emfSessionId;
      loggedOut := false;
    }

    /** Without a session: Auth, and no request. With one: the `wol_list`
        GET with the session cookie, and its answer interpreted. */
    method ListPc(net: OldRequest -> Exchange, parseMac: string -> Option<Mac6>)
      returns (r: WolResult<seq<PcInfo>>, sent: Option<OldRequest>)
      requires !loggedOut
      ensures emfSessionId.None? ==> r == Err(Auth) && sent.None?
      ensures emfSessionId.Some? ==>
                sent == Some(WolListRequest(serviceUrl, emfSessionId.value)) &&
                r == WolShowOutcome(net(sent.value), parseMac)
    {
      match emfSessionId {
        case Some(session) =>
          var request := WolListRequest(serviceUrl, session);
          r, sent := WolShowOutcome(net(request), parseMac), Some(request);
        case None =>
          r, sent := Err(Auth), None;
      }
    }

    /** Without a session: Auth, and no request. With one: the `wakeup` GET
        for `target` with the session cookie, and its answer interpreted. */
    method SendWolPacket(target: Mac6, net: OldRequest -> Exchange)
      returns (r: WolResult<()>, sent: Option<OldRequest>)
      requires !loggedOut
      ensures emfSessionId.None? ==> r == Err(Auth) && sent.None?
      ensures emfSessionId.Some? ==>
                sent == Some(WakeupRequest(serviceUrl, emfSessionId.value, target)) &&
                r == SignalOutcome(net(sent.value))
    {
      match emfSessionId {
        case Some(session) =>
          var request := WakeupRequest(serviceUrl, session, target);
          r, sent := SignalOutcome(net(request)), Some(request);
        case None =>
          r, sent := Err(Auth), None;
      }
    }

    /** Consumes the client. Without a session: Auth, and no request. With
        one: the logout GET with the session cookie, which succeeds once it
        is answered. */
    method Logout(net: OldRequest -> Exchange) returns (r: WolResult<()>, sent: Option<OldRequest>)
      requires !loggedOut
      modifies this
      ensures loggedOut
      ensures emfSessionId.None? ==> r == Err(Auth) && sent.None?
      ensures emfSessionId.Some? ==>
                sent == Some(LogoutRequest(serviceUrl, emfSessionId.value)) &&
                r == LogoutOutcome(net(sent.value))
    {
      match emfSessionId {
        case Some(session) =>
          var request := LogoutRequest(serviceUrl, session);
          r, sent := LogoutOutcome(net(request)), Some(request);
        case None =>
          r, sent := Err(Auth), None;
      }
      loggedOut := true;
    }
  }

  /** The factory login: build the HTTP client (Init on failure, with no
      request), POST the credentials, and on success hold the session id and
      the base URL. */
  method Login(baseUrl: Url, id: string, password: string, builds: bool, net: OldRequest -> Exchange)
    returns (r: Result<Client, Error>, sent: Option<OldRequest>)
    ensures sent == (if builds then Some(LoginRequest(baseUrl, id, password)) else None)
    ensures r.Ok? <==> LoginResult(baseUrl, id, password, builds, net).Ok?
    ensures r.Ok? ==> fresh(r.value) && !r.value.loggedOut && r.value.serviceUrl == baseUrl &&
                      r.value.emfSessionId == Some(LoginResult(baseUrl, id, password, builds, net).value)
    ensures r.Err? ==> r.error == LoginResult(baseUrl, id, password, builds, net).error
  {
    if !builds {
      return Err(Init), None;
    }
    var request := LoginRequest(baseUrl, id, password);
    sent := Some(request);
    match LoginOutcome(net(request)) {
      case Ok(session) =>
        var client := new Client(baseUrl, Some(session));
        r := Ok(client);
      case Err(e) =>
        r := Err(e);
    }
  }
}
